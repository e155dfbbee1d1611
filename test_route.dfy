/** Test creation and question generation of Server/src/Routes/test.route.ts:
    the `POST /create` guard, the stored test, and `GET /questions/:hash`,
    which turns the AI's numbered-list reply into the test's questions or
    into an error whose text decides the HTTP status. */
module TestRoute {
  import opened Js
  import opened JsText
  import opened QuestionParser
  import Utils

  // ---------------------------------------------------------------- POST /create

  /** The fields `POST /create` reads from the request body. */
  datatype CreateTestBody = CreateTestBody(
    title: Value, subject: Value, description: Value,
    numQuestions: Value, difficulty: Value, testDateTime: Value)

  const MissingFieldsMessage := "Missing required fields for test creation."
  const QuestionCountMessage := "Number of questions must be a positive integer."
  const DifficultyMessage := "Difficulty must be 'easy', 'medium', or 'hard'."

  /** No field is falsy. */
  predicate FieldsPresent(b: CreateTestBody)
  {
    Truthy(b.title) && Truthy(b.subject) && Truthy(b.description)
    && Truthy(b.numQuestions) && Truthy(b.difficulty) && Truthy(b.testDateTime)
  }

  datatype Difficulty = Easy | Medium | Hard

  /** `['easy', 'medium', 'hard'].includes(v)`: strict equality with one of
      the three strings. */
  function DifficultyOf(v: Value): Option<Difficulty>
  {
    if v == Str("easy") then Some(Easy)
    else if v == Str("medium") then Some(Medium)
    else if v == Str("hard") then Some(Hard)
    else None
  }

  /** The 400 message of the guards at test.route.ts:37-48, exactly as
      written: the count only has to be a number of at least 1. */
  function CreateRejectionAsWritten(b: CreateTestBody): Option<string>
  {
    if !FieldsPresent(b) then Some(MissingFieldsMessage)
    else if !b.numQuestions.Num? || b.numQuestions.n < 1.0 then Some(QuestionCountMessage)
    else if DifficultyOf(b.difficulty).None? then Some(DifficultyMessage)
    else None
  }

  predicate IsWhole(x: real)
  {
    x.Floor as real == x
  }

  /** The guards as their message says they behave: the count must also be
      a whole number. This is the guard the rest of the model uses. */
  function CreateRejection(b: CreateTestBody): Option<string>
  {
    if !FieldsPresent(b) then Some(MissingFieldsMessage)
    else if !b.numQuestions.Num? || b.numQuestions.n < 1.0 || !IsWhole(b.numQuestions.n) then
      Some(QuestionCountMessage)
    else if DifficultyOf(b.difficulty).None? then Some(DifficultyMessage)
    else None
  }

  /** A stored test. `owner` is the hex text of the creator's id. */
  datatype Test = Test(
    title: Value, subject: Value, description: Value,
    numQuestions: nat, difficulty: Difficulty, testDateTime: Value,
    hash: string, owner: string)

  /** `POST /create` (test.route.ts:34-77): 400 with the guard's message, or
      201 with a new test whose hash is a 10-character `randomHash` of the
      caller's id. `draws` stands for the `Math.random` results. */
  method CreateTest(body: CreateTestBody, userId: string, draws: seq<nat>)
    returns (status: nat, message: string, created: Option<Test>)
    requires Utils.ValidDraws(draws, 10)
    ensures CreateRejection(body).Some? ==>
              status == 400 && message == CreateRejection(body).value && created.None?
    ensures CreateRejection(body).None? ==> status == 201 && created.Some?
    ensures created.Some? ==>
              var t := created.value;
              && t.title == body.title && t.subject == body.subject
              && t.description == body.description && t.testDateTime == body.testDateTime
              && body.numQuestions == Num(t.numQuestions as real) && t.numQuestions >= 1
              && DifficultyOf(body.difficulty) == Some(t.difficulty)
              && t.hash == Utils.HashFromDraws(userId, draws) && t.owner == userId
  {
    var rejection := CreateRejection(body);
    if rejection.Some? {
      return 400, rejection.value, None;
    }
    var testHash := Utils.RandomHash(10, userId, draws);
    var count := body.numQuestions.n.Floor;
    created := Some(Test(body.title, body.subject, body.description, count as nat,
                         DifficultyOf(body.difficulty).value, body.testDateTime, testHash, userId));
    status, message := 201, "Test created successfully!";
  }

  /** The guard rejects a body exactly when a field is falsy, the count is
      not a whole number of at least 1, or the difficulty is not one of the
      three levels; the first failing check chooses the message. */
  lemma CreateRejectionCases(b: CreateTestBody)
    ensures CreateRejection(b) == Some(MissingFieldsMessage) <==> !FieldsPresent(b)
    ensures CreateRejection(b) == Some(QuestionCountMessage) <==>
              FieldsPresent(b) && !(b.numQuestions.Num? && b.numQuestions.n >= 1.0 && IsWhole(b.numQuestions.n))
    ensures CreateRejection(b).None? <==>
              FieldsPresent(b) && b.numQuestions.Num? && b.numQuestions.n >= 1.0
              && IsWhole(b.numQuestions.n) && b.difficulty in [Str("easy"), Str("medium"), Str("hard")]
  {
  }

  // ---------------------------------------------------------------- GET /questions/:hash

  /** The substrings the error handler looks for (test.route.ts:180-182). */
  const NotFoundTag := "Test not found"
  const AiFailedTag := "AI failed"
  const ResponseFormatTag := "AI response format"

  /** Each message is a handler tag followed by its detail. */
  const EmptyQuestionsDetail := " to generate questions" + " (empty response)."
  const EmptyQuestionsMessage := AiFailedTag + EmptyQuestionsDetail

  /** `AI response format was invalid. ${n} lines did not match the required
      'number) question' format.` */
  function FormatInvalidMessage(n: nat): string
  {
    ResponseFormatTag + FormatInvalidDetail(n)
  }

  function FormatInvalidDetail(n: nat): string
  {
    " was invalid. " + NatToString(n) + " lines did not match the" + " required 'number) question'" + " format."
  }

  const NoQuestionsDetail :=
    " was invalid. Could not" + " extract any questions in" + " the 'number) question'" + " format."
  const NoQuestionsMessage := ResponseFormatTag + NoQuestionsDetail

  /** `AI response format error: Expected ${expected} questions, but
      successfully parsed ${parsed}.` */
  function CountMismatchMessage(expected: nat, parsed: nat): string
  {
    ResponseFormatTag + CountMismatchDetail(expected, parsed)
  }

  function CountMismatchDetail(expected: nat, parsed: nat): string
  {
    " error: Expected " + NatToString(expected) + " questions, but" + " successfully parsed " + NatToString(parsed) + "."
  }

  /** The checks of test.route.ts:156-168, in order, on what the line loop
      produced. */
  function Verdict(extracted: seq<string>, errorCount: nat, blankReply: bool, numQuestions: nat)
    : Result<seq<string>, string>
  {
    if errorCount > 0 then Err(FormatInvalidMessage(errorCount))
    else if |extracted| == 0 && !blankReply then Err(NoQuestionsMessage)
    else if |extracted| != numQuestions then Err(CountMismatchMessage(numQuestions, |extracted|))
    else Ok(extracted)
  }

  /** What the handler of test.route.ts:129-168 concludes from the AI reply:
      the questions, or the message of the error it throws. */
  function ParseQuestions(responseText: string, numQuestions: nat): Result<seq<string>, string>
  {
    if responseText == "" then Err(EmptyQuestionsMessage)
    else
      var kinds := Classify(ReplyLines(responseText));
      Verdict(QuestionsOf(kinds), |LineErrorsOf(kinds)|, Trim(responseText) == "", numQuestions)
  }

  /** The handler's parsing steps, test.route.ts:129-168. */
  method GenerateQuestions(responseText: string, numQuestions: nat) returns (r: Result<seq<string>, string>)
    ensures r == ParseQuestions(responseText, numQuestions)
  {
    if responseText == "" {
      return Err(EmptyQuestionsMessage);
    }
    var lines := Split(Trim(responseText), '\n');
    var extracted, lineErrors := ExtractQuestions(lines);
    if |lineErrors| > 0 {
      return Err(FormatInvalidMessage(|lineErrors|));
    }
    if |extracted| == 0 && Trim(responseText) != "" {
      return Err(NoQuestionsMessage);
    }
    if |extracted| != numQuestions {
      return Err(CountMismatchMessage(numQuestions, |extracted|));
    }
    return Ok(extracted);
  }

  /** The status the catch block of test.route.ts:178-186 answers with. */
  function QuestionsErrorStatus(message: string): nat
  {
    if Contains(message, NotFoundTag) then 404
    else if Contains(message, AiFailedTag) || Contains(message, ResponseFormatTag) then 502
    else 500
  }

  /** `GET /questions/:hash` once the test is looked up: 404 for an unknown
      hash, 200 with the parsed questions, or the status the error maps to.
      `responseText` stands for the AI's reply. */
  method GetQuestions(test: Option<Test>, responseText: string) returns (status: nat, questions: seq<string>)
    ensures test.None? ==> status == 404 && questions == []
    ensures test.Some? ==>
              match ParseQuestions(responseText, test.value.numQuestions)
              case Ok(qs) => status == 200 && questions == qs
              case Err(m) => status == QuestionsErrorStatus(m) && questions == []
  {
    if test.None? {
      return 404, [];
    }
    var r := GenerateQuestions(responseText, test.value.numQuestions);
    match r
    case Ok(qs) => status, questions := 200, qs;
    case Err(m) => status, questions := QuestionsErrorStatus(m), [];
  }

  // ---------------------------------------------------------------- properties of the parse

  /** The parse succeeds exactly when the reply is non-empty, every line is
      blank or carries the `<digits>)<whitespace>` prefix, and the number of
      questions equals the requested count. */
  lemma ParseQuestionsOkIff(responseText: string, numQuestions: nat)
    ensures var lines := ReplyLines(responseText);
            ParseQuestions(responseText, numQuestions).Ok? <==>
              && responseText != ""
              && (forall i | 0 <= i < |lines| :: WellFormedLine(lines[i]))
              && |QuestionsOf(Classify(lines))| == numQuestions
  {
    var lines := ReplyLines(responseText);
    var kinds := Classify(lines);
    forall i | 0 <= i < |kinds| ensures !kinds[i].NoText? {
      QuestionTextIsRemainder(lines[i]);
    }
    LineErrorsIffMalformed(kinds);
    if responseText != "" && LineErrorsOf(kinds) == [] && QuestionsOf(kinds) == [] && Trim(responseText) != "" {
      NoQuestionsBranchUnreachable(responseText);
    }
  }

  /** A single line outside the expected format fails the whole parse; no
      partial list of questions is returned. */
  lemma MalformedLineFailsParse(responseText: string, numQuestions: nat, i: nat)
    requires responseText != ""
    requires i < |ReplyLines(responseText)| && !WellFormedLine(ReplyLines(responseText)[i])
    ensures ParseQuestions(responseText, numQuestions).Err?
    ensures ParseQuestions(responseText, numQuestions).error ==
              FormatInvalidMessage(|LineErrorsOf(Classify(ReplyLines(responseText)))|)
  {
    var lines := ReplyLines(responseText);
    var kinds := Classify(lines);
    forall j | 0 <= j < |kinds| ensures !kinds[j].NoText? {
      QuestionTextIsRemainder(lines[j]);
    }
    LineErrorsIffMalformed(kinds);
    assert kinds[i].Malformed?;
  }

  /** The error "Could not extract any questions" (test.route.ts:161-163)
      is never thrown: every non-blank line of a non-blank reply yields a
      question or an error, so reaching that check with no errors means at
      least one question was extracted. */
  lemma NoQuestionsBranchUnreachable(responseText: string)
    requires Trim(responseText) != ""
    ensures var kinds := Classify(ReplyLines(responseText));
            LineErrorsOf(kinds) == [] ==> |QuestionsOf(kinds)| > 0
  {
    var kinds := Classify(ReplyLines(responseText));
    NonBlankReplyHasNonBlankLine(responseText);
    EntriesCountNonBlankLines(kinds);
  }

  /** When no line of the reply is blank, the questions are the lines in
      order, each with its `<digits>)<whitespace>` prefix cut off after
      trimming. */
  lemma ParsedQuestionsAreLineRemainders(responseText: string)
    requires responseText != ""
    requires var lines := ReplyLines(responseText);
             forall i | 0 <= i < |lines| :: WellFormedLine(lines[i]) && Trim(lines[i]) != ""
    ensures var lines := ReplyLines(responseText);
            ParseQuestions(responseText, |lines|).Ok?
            && |ParseQuestions(responseText, |lines|).value| == |lines|
            && forall i | 0 <= i < |lines| ::
                 var t := Trim(lines[i]);
                 QuestionPrefix(t).Some? && ParseQuestions(responseText, |lines|).value[i] == t[QuestionPrefix(t).value..]
  {
    var lines := ReplyLines(responseText);
    var kinds := Classify(lines);
    QuestionLinesAreRemainders(lines);
    QuestionsOfQuestionLines(kinds);
    ParseQuestionsOkIff(responseText, |lines|);
    assert ParseQuestions(responseText, |lines|).value == QuestionsOf(kinds);
  }

  /** A message that starts with `tag` and has no 'T' maps to 502 when
      `tag` is one of the two substrings the handler sends to 502. */
  lemma TaggedMessageIsBadGateway(tag: string, rest: string)
    requires tag == AiFailedTag || tag == ResponseFormatTag
    requires 'T' !in rest
    ensures QuestionsErrorStatus(tag + rest) == 502
  {
    assert 'T' !in AiFailedTag && 'T' !in ResponseFormatTag;
    ContainsPrefix(tag, rest);
    assert NotFoundTag[0] == 'T';
    LacksFirstChar(tag + rest, NotFoundTag);
  }

  lemma FormatInvalidIsBadGateway(n: nat)
    ensures QuestionsErrorStatus(FormatInvalidMessage(n)) == 502
  {
    FormatInvalidDetailLacksT(n);
    TaggedMessageIsBadGateway(ResponseFormatTag, FormatInvalidDetail(n));
  }

  lemma FormatInvalidDetailLacksT(n: nat)
    ensures 'T' !in FormatInvalidDetail(n)
  {
    var a, b, c, d := " was invalid. ", " lines did not match the", " required 'number) question'", " format.";
    assert 'T' !in a && 'T' !in b;
    assert 'T' !in c && 'T' !in d;
    NatToStringOnlyDigits(n, 'T');
    var m := NatToString(n);
    LacksInJoin('T', a, m);
    LacksInJoin('T', a + m, b);
    LacksInJoin('T', a + m + b, c);
    LacksInJoin('T', a + m + b + c, d);
  }

  lemma NoQuestionsIsBadGateway()
    ensures QuestionsErrorStatus(NoQuestionsMessage) == 502
  {
    assert 'T' !in NoQuestionsDetail;
    TaggedMessageIsBadGateway(ResponseFormatTag, NoQuestionsDetail);
  }

  lemma CountMismatchIsBadGateway(expected: nat, parsed: nat)
    ensures QuestionsErrorStatus(CountMismatchMessage(expected, parsed)) == 502
  {
    CountMismatchDetailLacksT(expected, parsed);
    TaggedMessageIsBadGateway(ResponseFormatTag, CountMismatchDetail(expected, parsed));
  }

  lemma CountMismatchDetailLacksT(expected: nat, parsed: nat)
    ensures 'T' !in CountMismatchDetail(expected, parsed)
  {
    var a, b, c, d := " error: Expected ", " questions, but", " successfully parsed ", ".";
    assert 'T' !in a && 'T' !in b;
    assert 'T' !in c && 'T' !in d;
    NatToStringOnlyDigits(expected, 'T');
    NatToStringOnlyDigits(parsed, 'T');
    var e, p := NatToString(expected), NatToString(parsed);
    LacksInJoin('T', a, e);
    LacksInJoin('T', a + e, b);
    LacksInJoin('T', a + e + b, c);
    LacksInJoin('T', a + e + b + c, p);
    LacksInJoin('T', a + e + b + c + p, d);
  }

  /** Every error the checks after the loop throw is answered with 502. */
  lemma VerdictErrorsAreBadGateway(extracted: seq<string>, errorCount: nat, blankReply: bool, numQuestions: nat)
    requires Verdict(extracted, errorCount, blankReply, numQuestions).Err?
    ensures QuestionsErrorStatus(Verdict(extracted, errorCount, blankReply, numQuestions).error) == 502
  {
    if errorCount > 0 {
      FormatInvalidIsBadGateway(errorCount);
    } else if |extracted| == 0 && !blankReply {
      NoQuestionsIsBadGateway();
    } else {
      CountMismatchIsBadGateway(numQuestions, |extracted|);
    }
  }

  /** Every error of the parse is answered with 502 Bad Gateway. */
  lemma ParseErrorsAreBadGateway(responseText: string, numQuestions: nat)
    requires ParseQuestions(responseText, numQuestions).Err?
    ensures QuestionsErrorStatus(ParseQuestions(responseText, numQuestions).error) == 502
  {
    if responseText == "" {
      assert 'T' !in EmptyQuestionsDetail;
      TaggedMessageIsBadGateway(AiFailedTag, EmptyQuestionsDetail);
    } else {
      var kinds := Classify(ReplyLines(responseText));
      VerdictErrorsAreBadGateway(QuestionsOf(kinds), |LineErrorsOf(kinds)|, Trim(responseText) == "", numQuestions);
    }
  }

  /** `GET /questions/:hash` answers only 200, 404 or 502: the 500 branch
      is never reached by a parse error. */
  lemma QuestionsStatusCodes(test: Option<Test>, responseText: string)
    requires test.Some? && ParseQuestions(responseText, test.value.numQuestions).Err?
    ensures QuestionsErrorStatus(ParseQuestions(responseText, test.value.numQuestions).error) == 502
  {
    ParseErrorsAreBadGateway(responseText, test.value.numQuestions);
  }

  // ---------------------------------------------------------------- every created test is answerable

  /** `n` lines "1) Q". */
  function SampleLines(n: nat): seq<string>
  {
    seq(n, _ => "1) Q")
  }

  /** A reply of `n` lines "1) Q". */
  function SampleReply(n: nat): string
  {
    Join(SampleLines(n), '\n')
  }

  /** For every count the corrected guard accepts, some AI reply parses
      into exactly that many questions. */
  lemma EveryAcceptedCountIsAttainable(b: CreateTestBody)
    requires CreateRejection(b).None?
    ensures var n := b.numQuestions.n.Floor as nat;
            n as real == b.numQuestions.n
            && ParseQuestions(SampleReply(n), n) == Ok(seq(n, _ => "Q"))
  {
    var n := b.numQuestions.n.Floor as nat;
    SampleReplyParses(n);
  }

  lemma SampleReplyParses(n: nat)
    requires n >= 1
    ensures ParseQuestions(SampleReply(n), n) == Ok(seq(n, _ => "Q"))
  {
    SampleReplyLines(n);
    SampleLinesParse(n);
    ParseQuestionsOfLines(SampleReply(n), n, SampleLines(n));
    var qs := seq(n, _ => "Q");
    assert |qs| == n;
  }

  /** Each sample line is one question "Q" and no line is in error. */
  lemma SampleLinesParse(n: nat)
    ensures QuestionsOf(Classify(SampleLines(n))) == seq(n, _ => "Q")
    ensures LineErrorsOf(Classify(SampleLines(n))) == []
  {
    var kinds := Classify(SampleLines(n));
    SampleKinds(n);
    QuestionsOfQuestionLines(kinds);
    LineErrorsIffMalformed(kinds);
  }

  /** `ParseQuestions` in terms of the reply's lines. */
  lemma ParseQuestionsOfLines(responseText: string, numQuestions: nat, lines: seq<string>)
    requires responseText != "" && ReplyLines(responseText) == lines
    ensures ParseQuestions(responseText, numQuestions)
            == Verdict(QuestionsOf(Classify(lines)), |LineErrorsOf(Classify(lines))|, Trim(responseText) == "", numQuestions)
  {
  }

  lemma SampleKinds(n: nat)
    ensures forall i | 0 <= i < n :: Classify(SampleLines(n))[i] == Question("Q")
  {
    SampleLineIsQuestion();
  }

  lemma SampleReplyLines(n: nat)
    requires n >= 1
    ensures Trim(SampleReply(n)) == SampleReply(n) != ""
    ensures ReplyLines(SampleReply(n)) == SampleLines(n)
  {
    var pieces := SampleLines(n);
    var text := SampleReply(n);
    JoinEnds(pieces, '\n');
    assert IsTrimmed(text);
    TrimTrimmed(text);
    JoinSplit(pieces, '\n');
  }

  lemma SampleLineIsQuestion()
    ensures ClassifyLine("1) Q") == Question("Q")
  {
    SampleLineTrimmed();
    SampleLinePrefix();
    assert "1) Q"[3..] == "Q";
    SampleTextTrimmed();
  }

  lemma SampleLineTrimmed()
    ensures Trim("1) Q") == "1) Q"
  {
    TrimTrimmed("1) Q");
  }

  lemma SampleTextTrimmed()
    ensures Trim("Q") == "Q"
  {
    TrimTrimmed("Q");
  }

  lemma SampleLinePrefix()
    ensures QuestionPrefix("1) Q") == Some(3)
  {
    DigitRunOfDigits("1", ") Q");
    assert "1" + ") Q" == "1) Q";
    assert "1) Q"[2..] == " Q";
    assert LeadingSpaces(" Q") == 1 by {
      assert " Q"[1..] == "Q";
    }
  }

  /** The guard as written lets a fractional count such as 2.5 through,
      yet no reply can ever contain 2.5 questions, so every request for
      that test's questions fails at the count check (test.route.ts:165). */
  lemma AsWrittenGuardAcceptsFractionalCount()
    ensures var b := CreateTestBody(Str("T"), Str("S"), Str("D"), Num(2.5), Str("easy"), Str("2025-01-01"));
            && CreateRejectionAsWritten(b).None?
            && CreateRejection(b) == Some(QuestionCountMessage)
            && forall responseText: string ::
                 |QuestionsOf(Classify(ReplyLines(responseText)))| as real != b.numQuestions.n
  {
    assert 2.5.Floor == 2;
  }
}
