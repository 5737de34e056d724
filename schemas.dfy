/** Input sanitisers, the UUID check and the field constraints of the request
    schemas (src/lib/validation/schemas.ts).

    Zod itself is not modelled: each schema becomes a predicate over the parsed
    field values, and Zod's own `.uuid()` and `.email()` checks are parameters. */
module Schemas {
  import opened Text
  import QuestionTypes

  // ---------------------------------------------------------------------------
  // sanitizeHtml
  // ---------------------------------------------------------------------------

  /** `s.replace(/c/g, rep)` for a single character `c`. */
  function ReplaceChar(s: string, c: char, rep: string): (r: string)
    ensures c !in rep ==> c !in r
    ensures forall d :: d != c && d !in rep ==> (d in r <==> d in s)
    ensures c !in s ==> r == s
  {
    if |s| == 0 then ""
    else
      var rest := ReplaceChar(s[1..], c, rep);
      assert s == [s[0]] + s[1..];
      (if s[0] == c then rep else [s[0]]) + rest
  }

  lemma {:induction false} ReplaceCharAppend(a: string, b: string, c: char, rep: string)
    ensures ReplaceChar(a + b, c, rep) == ReplaceChar(a, c, rep) + ReplaceChar(b, c, rep)
  {
    if |a| > 0 {
      assert (a + b)[1..] == a[1..] + b;
      ReplaceCharAppend(a[1..], b, c, rep);
    } else {
      assert a + b == b;
    }
  }

  /** The encoding pass: `<` becomes `&lt;`, then `>` becomes `&gt;`. */
  function EncodeAngles(s: string): (r: string)
    ensures '<' !in r && '>' !in r
    ensures '<' !in s && '>' !in s ==> r == s
  {
    ReplaceChar(ReplaceChar(s, '<', "&lt;"), '>', "&gt;")
  }

  /** Reads the entities `&lt;` and `&gt;` back as `<` and `>`. */
  function DecodeAngles(s: string): string {
    if |s| == 0 then ""
    else if StartsWith(s, "&lt;") then "<" + DecodeAngles(s[4..])
    else if StartsWith(s, "&gt;") then ">" + DecodeAngles(s[4..])
    else [s[0]] + DecodeAngles(s[1..])
  }

  /** Encoding one character at the front of a string. */
  lemma EncodeAnglesCons(c: char, s: string)
    ensures EncodeAngles([c] + s) ==
      (if c == '<' then "&lt;" else if c == '>' then "&gt;" else [c]) + EncodeAngles(s)
  {
    ReplaceCharAppend([c], s, '<', "&lt;");
    var once := ReplaceChar([c], '<', "&lt;");
    assert ReplaceChar([c], '<', "&lt;") == (if c == '<' then "&lt;" else [c]);
    ReplaceCharAppend(once, ReplaceChar(s, '<', "&lt;"), '>', "&gt;");
    if c == '<' {
      assert ReplaceChar("&lt;", '>', "&gt;") == "&lt;";
    } else {
      assert ReplaceChar([c], '>', "&gt;") == (if c == '>' then "&gt;" else [c]);
    }
  }

  lemma DecodeEntity(entity: string, c: char, t: string)
    requires (entity == "&lt;" && c == '<') || (entity == "&gt;" && c == '>')
    ensures DecodeAngles(entity + t) == [c] + DecodeAngles(t)
  {
    var e := entity + t;
    assert e[..4] == entity;
    assert e[4..] == t;
  }

  lemma DecodePlain(c: char, t: string)
    requires c != '&'
    ensures DecodeAngles([c] + t) == [c] + DecodeAngles(t)
  {
    var e := [c] + t;
    assert e[1..] == t;
    assert !StartsWith(e, "&lt;") && !StartsWith(e, "&gt;") by {
      if |e| >= 4 {
        assert e[..4][0] == c;
      }
    }
  }

  /** On text without `&`, decoding undoes the encoding, so nothing but the angle
      brackets is changed. */
  lemma {:induction false} DecodeEncodeAngles(s: string)
    requires '&' !in s
    ensures DecodeAngles(EncodeAngles(s)) == s
  {
    if |s| > 0 {
      var c := s[0];
      assert s == [c] + s[1..];
      EncodeAnglesCons(c, s[1..]);
      DecodeEncodeAngles(s[1..]);
      if c == '<' {
        DecodeEntity("&lt;", c, EncodeAngles(s[1..]));
      } else if c == '>' {
        DecodeEntity("&gt;", c, EncodeAngles(s[1..]));
      } else {
        DecodePlain(c, EncodeAngles(s[1..]));
      }
    }
  }

  /** `sanitizeHtml`: an empty input is returned as it is; otherwise the regex
      passes (`strip`: script blocks, event handlers, `javascript:` and
      `data:text/html`) run first, then the angle brackets are encoded and the
      result trimmed. */
  function SanitizeHtml(strip: string -> string, input: string): (r: string)
    ensures input == "" ==> r == ""
    ensures '<' !in r && '>' !in r
    ensures r == [] || (!IsWhitespace(r[0]) && !IsWhitespace(r[|r| - 1]))
  {
    if input == "" then input
    else
      var stripped := strip(input);
      Trim(EncodeAngles(stripped))
  }

  /** Text the stripping passes leave alone and that has no angle brackets comes
      out merely trimmed. */
  lemma SanitizeHtmlOfPlainText(strip: string -> string, input: string)
    requires strip(input) == input && '<' !in input && '>' !in input
    ensures SanitizeHtml(strip, input) == Trim(input)
  {
  }

  /** No sanitised text can hold a tag such as `<script>`. */
  lemma SanitizedHtmlHasNoTag(strip: string -> string, input: string, tag: string)
    requires |tag| > 0 && tag[0] == '<'
    ensures !Contains(SanitizeHtml(strip, input), tag)
  {
    var r := SanitizeHtml(strip, input);
    if Contains(r, tag) {
      ContainedCharacter(r, tag, 0);
      assert false;
    }
  }

  // ---------------------------------------------------------------------------
  // sanitizeFileName
  // ---------------------------------------------------------------------------

  /** `s.replace(/pat/g, '')`: every match, from left to right and without
      overlapping, is removed; the result is not scanned again. */
  function RemoveAll(s: string, pat: string): (r: string)
    requires |pat| > 0
    ensures |r| <= |s|
    ensures forall c :: c in r ==> c in s
    decreases |s|
  {
    if |s| == 0 then ""
    else if StartsWith(s, pat) then RemoveAll(s[|pat|..], pat)
    else
      var rest := RemoveAll(s[1..], pat);
      assert forall c :: c in rest ==> c in s[1..];
      [s[0]] + rest
  }

  /** Text that lacks the last character of the pattern holds no match. */
  lemma {:induction false} RemoveAllWithoutMatch(s: string, pat: string)
    requires |pat| > 0 && pat[|pat| - 1] !in s
    ensures RemoveAll(s, pat) == s
    decreases |s|
  {
    if |s| > 0 {
      if StartsWith(s, pat) {
        assert false;
      }
      RemoveAllWithoutMatch(s[1..], pat);
      assert s == [s[0]] + s[1..];
    }
  }

  /** A single removal pass can leave a match behind: `....//` becomes `../`. */
  lemma RemoveAllIsNotRepeated()
    ensures RemoveAll("....//", "../") == "../"
  {
    assert "....//"[2] != "../"[2];
    assert !StartsWith("....//", "../");
    assert "....//"[1..] == "...//";
    assert "...//"[2] != "../"[2];
    assert !StartsWith("...//", "../");
    assert "...//"[1..] == "..//";
    assert StartsWith("..//", "../");
    assert "..//"[3..] == "/";
    assert "/"[1..] == "";
  }

  /** `[a-zA-Z0-9._-]`. */
  predicate IsSafeFileChar(c: char) {
    ('a' <= c <= 'z') || ('A' <= c <= 'Z') || ('0' <= c <= '9') || c == '.' || c == '_' || c == '-'
  }

  /** `s.replace(/[^a-zA-Z0-9._-]/g, '_')`. */
  function ReplaceUnsafe(s: string): (r: string)
    ensures |r| == |s|
    ensures forall i :: 0 <= i < |s| ==> r[i] == (if IsSafeFileChar(s[i]) then s[i] else '_')
  {
    seq(|s|, i requires 0 <= i < |s| => if IsSafeFileChar(s[i]) then s[i] else '_')
  }

  const MAX_FILE_NAME_LENGTH: nat := 255

  /** The length limit as written: keep `255 - |ext| - 1` leading characters
      (none when that is negative, as `substring` clamps), then `"." + ext`, where
      `ext` is the text after the last dot, or the whole name when there is none. */
  function LimitLengthAsWritten(s: string): (r: string)
    ensures |s| <= MAX_FILE_NAME_LENGTH ==> r == s
    ensures forall c :: c in r ==> c in s || c == '.'
    ensures |s| > MAX_FILE_NAME_LENGTH ==> LastField(r, '.') == LastField(s, '.')
    ensures |s| > MAX_FILE_NAME_LENGTH && |LastField(s, '.')| <= 254 ==> |r| == MAX_FILE_NAME_LENGTH
  {
    if |s| > MAX_FILE_NAME_LENGTH then
      var ext := LastField(s, '.');
      var keep := MAX_FILE_NAME_LENGTH - |ext| - 1;
      var head := if keep <= 0 then "" else s[..keep];
      LastFieldAfterSeparator(head, ext, '.');
      assert head + "." + ext == head + ['.'] + ext;
      head + "." + ext
    else s
  }

  /** The passes of `sanitizeFileName` before its length limit. */
  function SanitizeFileNameChars(fileName: string): (r: string)
    ensures forall i :: 0 <= i < |r| ==> IsSafeFileChar(r[i])
  {
    var noForward := RemoveAll(fileName, "../");
    var noBackward := RemoveAll(noForward, "..\\");
    ReplaceUnsafe(noBackward)
  }

  /** `sanitizeFileName` as written. */
  function SanitizeFileNameAsWritten(fileName: string): (r: string)
    ensures forall i :: 0 <= i < |r| ==> IsSafeFileChar(r[i])
    ensures |LastField(r, '.')| <= 254 ==> |r| <= MAX_FILE_NAME_LENGTH
  {
    var s := SanitizeFileNameChars(fileName);
    var r := LimitLengthAsWritten(s);
    assert forall i :: 0 <= i < |r| ==> r[i] in r;
    r
  }

  /** A name longer than the limit and without any dot is not shortened: the
      whole name is taken as the extension and the result grows by one. */
  lemma DotlessLongNameIsNotShortened(fileName: string)
    requires forall i :: 0 <= i < |fileName| ==> 'a' <= fileName[i] <= 'z'
    requires |fileName| > MAX_FILE_NAME_LENGTH
    ensures |SanitizeFileNameAsWritten(fileName)| == |fileName| + 1
  {
    RemoveAllWithoutMatch(fileName, "../");
    RemoveAllWithoutMatch(fileName, "..\\");
    var s := SanitizeFileNameChars(fileName);
    assert s == fileName;
    assert '.' !in s;
    SplitOnSeparatorFree(s, '.');
    assert LastField(s, '.') == s;
  }

  /** As written, sanitising is idempotent on every result that fits the limit. */
  lemma SanitizeFileNameAsWrittenIdempotent(fileName: string)
    ensures var r := SanitizeFileNameAsWritten(fileName);
      |r| <= MAX_FILE_NAME_LENGTH ==> SanitizeFileNameAsWritten(r) == r
  {
    var r := SanitizeFileNameAsWritten(fileName);
    if |r| <= MAX_FILE_NAME_LENGTH {
      SafeNameIsFixed(r);
      assert LimitLengthAsWritten(r) == r;
    }
  }

  /** The character passes leave a name of safe characters as it is. */
  lemma SafeNameIsFixed(r: string)
    requires forall i :: 0 <= i < |r| ==> IsSafeFileChar(r[i])
    ensures SanitizeFileNameChars(r) == r
  {
    var forward, backward := "../", "..\\";
    assert forward[2] !in r && backward[2] !in r;
    RemoveAllWithoutMatch(r, forward);
    RemoveAllWithoutMatch(r, backward);
    assert ReplaceUnsafe(r) == r;
  }

  /** The length limit as evidently intended: never longer than 255 characters,
      and the same as written whenever the extension fits. */
  function LimitLength(s: string): (r: string)
    ensures |r| <= MAX_FILE_NAME_LENGTH
    ensures |LastField(s, '.')| <= 254 ==> r == LimitLengthAsWritten(s)
    ensures |s| <= MAX_FILE_NAME_LENGTH ==> r == s
    ensures forall c :: c in r ==> c in s || c == '.'
  {
    if |s| > MAX_FILE_NAME_LENGTH then
      var ext := LastField(s, '.');
      if |ext| <= 254 then
        var keep := MAX_FILE_NAME_LENGTH - |ext| - 1;
        (if keep <= 0 then "" else s[..keep]) + "." + ext
      else s[..MAX_FILE_NAME_LENGTH]
    else s
  }

  /** `sanitizeFileName` with the corrected length limit. */
  function SanitizeFileName(fileName: string): (r: string)
    ensures forall i :: 0 <= i < |r| ==> IsSafeFileChar(r[i])
    ensures |r| <= MAX_FILE_NAME_LENGTH
    ensures |LastField(SanitizeFileNameChars(fileName), '.')| <= 254 ==> r == SanitizeFileNameAsWritten(fileName)
  {
    var s := SanitizeFileNameChars(fileName);
    var r := LimitLength(s);
    SafeCharactersKept(s, r);
    r
  }

  /** Characters drawn from a safe name, or a '.', make a safe name. */
  lemma SafeCharactersKept(s: string, r: string)
    requires forall i :: 0 <= i < |s| ==> IsSafeFileChar(s[i])
    requires forall c :: c in r ==> c in s || c == '.'
    ensures forall i :: 0 <= i < |r| ==> IsSafeFileChar(r[i])
  {
    forall i | 0 <= i < |r|
      ensures IsSafeFileChar(r[i])
    {
      assert r[i] in r;
      if r[i] != '.' {
        var k :| 0 <= k < |s| && s[k] == r[i];
      }
    }
  }

  /** A sanitised name holds no path separator and no `../`. */
  lemma SanitizedFileNameHasNoTraversal(fileName: string)
    ensures var r := SanitizeFileName(fileName);
      '/' !in r && '\\' !in r && !Contains(r, "../")
  {
    var r := SanitizeFileName(fileName);
    if Contains(r, "../") {
      ContainedCharacter(r, "../", 2);
      assert false;
    }
  }

  /** Sanitising a sanitised name changes nothing. */
  lemma SanitizeFileNameIdempotent(fileName: string)
    ensures SanitizeFileName(SanitizeFileName(fileName)) == SanitizeFileName(fileName)
  {
    var r := SanitizeFileName(fileName);
    assert '/' !in r && '\\' !in r by {
      assert forall i :: 0 <= i < |r| ==> IsSafeFileChar(r[i]);
    }
    RemoveAllWithoutMatch(r, "../");
    RemoveAllWithoutMatch(r, "..\\");
    assert SanitizeFileNameChars(r) == ReplaceUnsafe(r);
    assert ReplaceUnsafe(r) == r;
    assert LimitLength(r) == r;
  }

  // ---------------------------------------------------------------------------
  // isValidUUID
  // ---------------------------------------------------------------------------

  predicate IsHexDigit(c: char) {
    ('0' <= c <= '9') || ('a' <= c <= 'f') || ('A' <= c <= 'F')
  }

  predicate HexRun(s: string, from: nat, to: nat)
    requires from <= to <= |s|
  {
    forall i :: from <= i < to ==> IsHexDigit(s[i])
  }

  /** `isValidUUID`: `[0-9a-f]{8}-[0-9a-f]{4}-[1-5][0-9a-f]{3}-[89ab][0-9a-f]{3}-[0-9a-f]{12}`,
      ignoring case, over the whole string. */
  predicate IsValidUUID(s: string)
    ensures IsValidUUID(s) ==> forall i :: 0 <= i < |s| ==> (s[i] == '-' <==> i == 8 || i == 13 || i == 18 || i == 23)
  {
    |s| == 36
    && HexRun(s, 0, 8) && s[8] == '-'
    && HexRun(s, 9, 13) && s[13] == '-'
    && '1' <= s[14] <= '5' && HexRun(s, 15, 18) && s[18] == '-'
    && s[19] in "89abAB" && HexRun(s, 20, 23) && s[23] == '-'
    && HexRun(s, 24, 36)
  }

  /** A valid UUID splits at its dashes into groups of 8, 4, 4, 4 and 12 hex digits. */
  lemma HexRunHasNoDash(s: string, from: nat, to: nat)
    requires from <= to <= |s| && HexRun(s, from, to)
    ensures '-' !in s[from..to]
    ensures forall i :: 0 <= i < to - from ==> IsHexDigit(s[from..to][i])
  {
  }

  lemma ValidUUIDGroups(s: string)
    requires IsValidUUID(s)
    ensures var g := SplitOn(s, '-');
      |g| == 5 && |g[0]| == 8 && |g[1]| == 4 && |g[2]| == 4 && |g[3]| == 4 && |g[4]| == 12
      && forall k, i :: 0 <= k < 5 && 0 <= i < |g[k]| ==> IsHexDigit(g[k][i])
  {
    var a, b, c, d, e := s[0..8], s[9..13], s[14..18], s[19..23], s[24..36];
    UUIDSplitsAtDashes(s);
    HexRunHasNoDash(s, 0, 8);
    HexRunHasNoDash(s, 9, 13);
    HexRunHasNoDash(s, 24, 36);
    assert forall i :: 0 <= i < 4 ==> IsHexDigit(c[i]) by {
      assert c[0] == s[14];
      HexRunHasNoDash(s, 15, 18);
      assert forall i :: 1 <= i < 4 ==> c[i] == s[15..18][i - 1];
    }
    assert forall i :: 0 <= i < 4 ==> IsHexDigit(d[i]) by {
      assert d[0] == s[19];
      HexRunHasNoDash(s, 20, 23);
      assert forall i :: 1 <= i < 4 ==> d[i] == s[20..23][i - 1];
    }
  }

  lemma UUIDSplitsAtDashes(s: string)
    requires IsValidUUID(s)
    ensures SplitOn(s, '-') == [s[0..8], s[9..13], s[14..18], s[19..23], s[24..36]]
  {
    var a, b, c, d, e := s[0..8], s[9..13], s[14..18], s[19..23], s[24..36];
    HexRunHasNoDash(s, 0, 8);
    HexRunHasNoDash(s, 9, 13);
    HexRunHasNoDash(s, 15, 18);
    HexRunHasNoDash(s, 20, 23);
    HexRunHasNoDash(s, 24, 36);
    assert c == [s[14]] + s[15..18];
    assert d == [s[19]] + s[20..23];
    assert s == a + ['-'] + (b + ['-'] + (c + ['-'] + (d + ['-'] + e)));
    FiveGroups(a, b, c, d, e);
  }

  /** Five dash-free groups joined by dashes split back into themselves. */
  lemma FiveGroups(a: string, b: string, c: string, d: string, e: string)
    requires '-' !in a && '-' !in b && '-' !in c && '-' !in d && '-' !in e
    ensures SplitOn(a + ['-'] + (b + ['-'] + (c + ['-'] + (d + ['-'] + e))), '-') == [a, b, c, d, e]
  {
    var de := d + ['-'] + e;
    var cde := c + ['-'] + de;
    var bcde := b + ['-'] + cde;
    SplitOnSeparatorFree(e, '-');
    SplitOnFirstPart(d, e, '-');
    SplitOnFirstPart(c, de, '-');
    SplitOnFirstPart(b, cde, '-');
    SplitOnFirstPart(a, bcde, '-');
  }


  /** Upper and lower case are accepted alike. */
  lemma ValidUUIDIgnoresCase(s: string)
    ensures IsValidUUID(s) <==> IsValidUUID(ToLower(s))
  {
    var t := ToLower(s);
    if |s| == 36 {
      forall i | 0 <= i < 36
        ensures IsHexDigit(s[i]) <==> IsHexDigit(t[i])
        ensures s[i] == '-' <==> t[i] == '-'
        ensures ('1' <= s[i] <= '5') <==> ('1' <= t[i] <= '5')
        ensures s[i] in "89abAB" <==> t[i] in "89abAB"
      {
        assert t[i] == LowerChar(s[i]);
      }
    }
  }

  /** The accepted and refused examples of the test suite. */
  lemma UUIDExamples()
    ensures !IsValidUUID("not-a-uuid")
    ensures !IsValidUUID("550e8400-e29b-41d4-a716")
    ensures !IsValidUUID("")
  {
  }

  /** The accepted example of the test suite. */
  const UUID_EXAMPLE: string := "550e8400-e29b-41d4-a716-446655440000"

  lemma ValidUUIDExample()
    ensures IsValidUUID(UUID_EXAMPLE)
  {
    ExampleGroup1();
    ExampleGroup2();
    ExampleGroup3();
    ExampleGroup4();
    ExampleGroup5();
  }

  // The five hex groups of the example, one small proof each.
  lemma ExampleGroup1() ensures HexRun(UUID_EXAMPLE, 0, 8) {}
  lemma ExampleGroup2() ensures HexRun(UUID_EXAMPLE, 9, 13) {}
  lemma ExampleGroup3() ensures HexRun(UUID_EXAMPLE, 15, 18) {}
  lemma ExampleGroup4() ensures HexRun(UUID_EXAMPLE, 20, 23) {}
  lemma ExampleGroup5() ensures HexRun(UUID_EXAMPLE, 24, 36) {}

  // ---------------------------------------------------------------------------
  // Field constraints of the schemas
  // ---------------------------------------------------------------------------

  /** A JavaScript number that is an integer (`z.number().int()`). */
  predicate IsInteger(x: real) {
    x == x.Floor as real
  }

  /** `writingSubmissionSchema`: lengths are checked on the raw text, which is then
      sanitised. */
  datatype WritingSubmission = WritingSubmission(submissionId: string, taskNumber: real, text: string)

  function ParseWritingSubmission(isUuid: string -> bool, strip: string -> string,
                                  submissionId: string, taskNumber: real, text: string): (r: Option<WritingSubmission>)
    ensures r.Some? <==>
      (isUuid(submissionId) && IsInteger(taskNumber) && 1.0 <= taskNumber <= 5.0 && 1 <= |text| <= 10000)
    ensures r.Some? ==> r.value.text == SanitizeHtml(strip, text) && '<' !in r.value.text
  {
    if isUuid(submissionId) && IsInteger(taskNumber) && 1.0 <= taskNumber <= 5.0 && 1 <= |text| <= 10000
    then Some(WritingSubmission(submissionId, taskNumber, SanitizeHtml(strip, text)))
    else None
  }

  /** Because the length is checked before sanitising, a response of blanks is
      accepted and stored as the empty string. */
  lemma BlankResponseAcceptedAsEmpty(isUuid: string -> bool, strip: string -> string, submissionId: string)
    requires isUuid(submissionId) && strip("   ") == "   "
    ensures ParseWritingSubmission(isUuid, strip, submissionId, 1.0, "   ") ==
      Some(WritingSubmission(submissionId, 1.0, ""))
  {
    assert EncodeAngles("   ") == "   ";
    assert forall i :: 0 <= i < 3 ==> IsWhitespace("   "[i]);
  }

  datatype Answer = Answer(questionId: string, selectedOption: string)

  const OPTIONS: seq<string> := ["A", "B", "C", "D"]

  /** The answer list shared by the intelligence and personality schemas. */
  predicate AnswersValid(isUuid: string -> bool, answers: seq<Answer>) {
    1 <= |answers| <= 50
    && forall k :: 0 <= k < |answers| ==> isUuid(answers[k].questionId) && answers[k].selectedOption in OPTIONS
  }

  /** `intelligenceSubmissionSchema` and `personalitySubmissionSchema` accept the same inputs. */
  function ParseAnswerSubmission(isUuid: string -> bool, submissionId: string, answers: seq<Answer>): (ok: bool)
    ensures ok ==> 1 <= |answers| <= 50
    ensures ok ==> forall k :: 0 <= k < |answers| ==> answers[k].selectedOption in {"A", "B", "C", "D"}
    ensures ok <==> isUuid(submissionId) && AnswersValid(isUuid, answers)
  {
    isUuid(submissionId) && AnswersValid(isUuid, answers)
  }

  /** The letters an answer may carry are exactly the stored correct options
      written in upper case: every accepted answer names one of them, and every
      stored option can be given as an answer. */
  lemma AcceptedOptionsAreStoredOptions(isUuid: string -> bool, submissionId: string, answers: seq<Answer>)
    ensures ParseAnswerSubmission(isUuid, submissionId, answers) ==>
      forall k :: 0 <= k < |answers| ==>
        exists o :: ToUpper(QuestionTypes.CorrectOptionValue(o)) == answers[k].selectedOption
    ensures forall o :: ToUpper(QuestionTypes.CorrectOptionValue(o)) in OPTIONS
  {
    var A, B, C, D := QuestionTypes.OptionA, QuestionTypes.OptionB, QuestionTypes.OptionC, QuestionTypes.OptionD;
    assert ToUpper("a") == "A" && ToUpper("b") == "B" && ToUpper("c") == "C" && ToUpper("d") == "D";
    assert ToUpper(QuestionTypes.CorrectOptionValue(A)) == "A";
    assert ToUpper(QuestionTypes.CorrectOptionValue(B)) == "B";
    assert ToUpper(QuestionTypes.CorrectOptionValue(C)) == "C";
    assert ToUpper(QuestionTypes.CorrectOptionValue(D)) == "D";
  }

  /** `violationSchema`'s list of violation types. */
  const SERVER_VIOLATION_TYPES: seq<string> := [
    "tab_switch", "screen_share_stopped", "page_refresh", "multiple_monitors",
    "devtools_detected", "network_failure", "browser_closed", "timer_exceeded"]

  predicate ViolationTypeAccepted(t: string)
    ensures t == "copy_paste_detected" ==> !ViolationTypeAccepted(t)
    ensures t == "timer_exceeded" ==> ViolationTypeAccepted(t)
  {
    t in SERVER_VIOLATION_TYPES
  }

  /** `candidateSchema`: the name's length is checked raw, then it is sanitised;
      the e-mail is checked (`.email()` is the parameter `isEmail`), bounded by 255,
      then lower-cased and trimmed. */
  datatype Candidate = Candidate(name: string, email: string)

  function ParseCandidate(isEmail: string -> bool, strip: string -> string, name: string, email: string): (r: Option<Candidate>)
    ensures r.Some? <==> (2 <= |name| <= 100 && isEmail(email) && |email| <= 255)
    ensures r.Some? ==> r.value.name == SanitizeHtml(strip, name)
    ensures r.Some? ==>
      |r.value.email| <= |email| && forall i :: 0 <= i < |r.value.email| ==> !('A' <= r.value.email[i] <= 'Z')
  {
    if 2 <= |name| <= 100 && isEmail(email) && |email| <= 255 then
      NormalisedEmailHasNoCapitals(email);
      Some(Candidate(SanitizeHtml(strip, name), Trim(ToLower(email))))
    else None
  }

  /** `email.toLowerCase().trim()` holds no capital letter. */
  lemma NormalisedEmailHasNoCapitals(email: string)
    ensures |Trim(ToLower(email))| <= |email|
    ensures forall i :: 0 <= i < |Trim(ToLower(email))| ==> !('A' <= Trim(ToLower(email))[i] <= 'Z')
  {
    var lower := ToLower(email);
    LowerHasNoCapitals(email);
    var trimmed := Trim(lower);
    forall i | 0 <= i < |trimmed| ensures !('A' <= trimmed[i] <= 'Z') {
      assert trimmed[i] in trimmed;
    }
  }

  lemma LowerHasNoCapitals(s: string)
    ensures forall c :: c in ToLower(s) ==> !('A' <= c <= 'Z')
  {
    var lower := ToLower(s);
    forall c | c in lower ensures !('A' <= c <= 'Z') {
      var i :| 0 <= i < |lower| && lower[i] == c;
      assert c == LowerChar(s[i]);
    }
  }

  /** A score of `scoreUpdateSchema`: absent, or between 0 and 10. */
  predicate ScoreValid(score: Option<real>) {
    score.None? || 0.0 <= score.value <= 10.0
  }

  /** A review note: absent or at most 5000 characters, sanitised when non-empty. */
  function ParseNote(strip: string -> string, note: Option<string>): (r: Option<Option<string>>)
    ensures r.Some? <==> (note.None? || |note.value| <= 5000)
    ensures r.Some? && note.Some? ==> r.value.Some? && '<' !in r.value.value
    ensures r.Some? && note.None? ==> r.value.None?
  {
    if note.None? then Some(None)
    else if |note.value| <= 5000 then Some(Some(if note.value != "" then SanitizeHtml(strip, note.value) else note.value))
    else None
  }

  /** `scoreUpdateSchema` after parsing: the three optional scores and the three
      optional review notes, the notes sanitised. */
  datatype ScoreUpdate = ScoreUpdate(submissionId: string, scores: seq<Option<real>>, notes: seq<Option<string>>)

  /** `scoreUpdateSchema`: the update is refused when the id is not a UUID, any
      given score lies outside 0 to 10 or any given note is over 5000 characters. */
  function ParseScoreUpdate(isUuid: string -> bool, strip: string -> string, submissionId: string,
                            written: Option<real>, audio: Option<real>, verbal: Option<real>,
                            writtenNotes: Option<string>, audioNotes: Option<string>,
                            verbalNotes: Option<string>): (r: Option<ScoreUpdate>)
    ensures r.Some? <==>
      (isUuid(submissionId) && ScoreValid(written) && ScoreValid(audio) && ScoreValid(verbal)
       && ParseNote(strip, writtenNotes).Some? && ParseNote(strip, audioNotes).Some?
       && ParseNote(strip, verbalNotes).Some?)
    ensures r.Some? ==> r.value.scores == [written, audio, verbal]
    ensures r.Some? ==>
      forall k :: 0 <= k < |r.value.scores| && r.value.scores[k].Some? ==> 0.0 <= r.value.scores[k].value <= 10.0
    ensures r.Some? ==> |r.value.notes| == 3
    ensures r.Some? ==>
      forall k :: 0 <= k < |r.value.notes| && r.value.notes[k].Some? ==> '<' !in r.value.notes[k].value
  {
    var w, a, v := ParseNote(strip, writtenNotes), ParseNote(strip, audioNotes), ParseNote(strip, verbalNotes);
    if isUuid(submissionId) && ScoreValid(written) && ScoreValid(audio) && ScoreValid(verbal)
       && w.Some? && a.Some? && v.Some?
    then Some(ScoreUpdate(submissionId, [written, audio, verbal], [w.value, a.value, v.value]))
    else None
  }

  const STATUS_VALUES: seq<string> := ["submitted", "passed", "failed"]

  predicate StatusAccepted(status: string) {
    status in STATUS_VALUES
  }

  /** `statusUpdateSchema`: a submission may be set to submitted, passed or
      failed only; a submission cannot be moved back to in progress. */
  function ParseStatusUpdate(isUuid: string -> bool, submissionId: string, status: string): (ok: bool)
    ensures ok ==> status == "submitted" || status == "passed" || status == "failed"
    ensures ok <==> isUuid(submissionId) && StatusAccepted(status)
    ensures status == "in_progress" ==> !ok
  {
    isUuid(submissionId) && StatusAccepted(status)
  }

  /** `[\w\-. ]`. */
  predicate IsUploadNameChar(c: char) {
    ('a' <= c <= 'z') || ('A' <= c <= 'Z') || ('0' <= c <= '9') || c == '_' || c == '-' || c == '.' || c == ' '
  }

  /** `[\w\-+.]`. */
  predicate IsMediaSubtypeChar(c: char) {
    ('a' <= c <= 'z') || ('A' <= c <= 'Z') || ('0' <= c <= '9') || c == '_' || c == '-' || c == '+' || c == '.'
  }

  /** `^(audio|video)\/[\w\-+.]+$`. */
  predicate ContentTypeValid(t: string) {
    (StartsWith(t, "audio/") || StartsWith(t, "video/"))
    && |t| > 6 && forall i :: 6 <= i < |t| ==> IsMediaSubtypeChar(t[i])
  }

  /** `uploadMetadataSchema`. */
  predicate UploadMetadataValid(isUuid: string -> bool, submissionId: string, fileName: string,
                                contentType: string, fileSize: real)
    ensures UploadMetadataValid(isUuid, submissionId, fileName, contentType, fileSize) ==>
      fileName != "" && '/' !in fileName && '\\' !in fileName && fileSize > 0.0
  {
    isUuid(submissionId)
    && 1 <= |fileName| <= 255 && (forall i :: 0 <= i < |fileName| ==> IsUploadNameChar(fileName[i]))
    && ContentTypeValid(contentType)
    && 0.0 < fileSize <= (500 * 1024 * 1024) as real
  }

  /** A non-empty sanitised file name always passes the file-name rule of the
      upload metadata schema. */
  lemma SanitizedNameFitsUploadSchema(fileName: string)
    requires SanitizeFileName(fileName) != ""
    ensures var r := SanitizeFileName(fileName);
      1 <= |r| <= 255 && forall i :: 0 <= i < |r| ==> IsUploadNameChar(r[i])
  {
  }
}
