/** Test submission and result export of Server/src/Routes/test.route.ts:
    `POST /submit/:hash` validates the answers, builds the evaluation
    prompt, reads a score from the AI's reply and stores the submission;
    `POST /export` keeps the submissions that carry a numeric score. */
module TestSubmit {
  import opened Js
  import opened JsText

  // ---------------------------------------------------------------- the request body

  /** One element of the `submissions` array: an object with its `question`
      and `answer` properties, or anything that is not a non-null object. */
  datatype Entry = Entry(question: Value, answer: Value) | NotAnObject

  /** The `submissions` field: an array, or anything else (missing, null, a
      string, a plain object). */
  datatype SubmissionsField = NotAnArray | Entries(items: seq<Entry>)

  /** A validated question/answer pair. */
  datatype QA = QA(question: string, answer: string)

  const MissingSubmissionMessage := "Missing student name or submissions array."
  const InvalidEntriesMessage :=
    "Submissions array contains invalid entries. Each must have 'question' and 'answer' strings."

  /** The element check of test.route.ts:199-203. */
  predicate WellFormedEntry(e: Entry)
  {
    e.Entry? && e.question.Str? && e.answer.Str?
  }

  /** The guards of test.route.ts:195-207, with the validated pairs on
      success. */
  function ValidateSubmission(studentName: Value, submissions: SubmissionsField): (r: Result<seq<QA>, string>)
    ensures r.Ok? ==>
              && submissions.Entries?
              && |r.value| == |submissions.items|
              && forall i | 0 <= i < |r.value| ::
                   submissions.items[i] == Entry(Str(r.value[i].question), Str(r.value[i].answer))
  {
    if !Truthy(studentName) || submissions.NotAnArray? || |submissions.items| == 0 then
      Err(MissingSubmissionMessage)
    else if !forall i | 0 <= i < |submissions.items| :: WellFormedEntry(submissions.items[i]) then
      Err(InvalidEntriesMessage)
    else
      var items := submissions.items;
      Ok(seq(|items|, i requires 0 <= i < |items| => QA(items[i].question.s, items[i].answer.s)))
  }

  /** A submission is accepted exactly when the student's name is truthy
      and `submissions` is a non-empty array of objects whose question and
      answer are both strings; the name and array check comes first. */
  lemma SubmissionAcceptedIff(studentName: Value, submissions: SubmissionsField)
    ensures ValidateSubmission(studentName, submissions).Ok? <==>
              && Truthy(studentName) && submissions.Entries? && |submissions.items| > 0
              && forall i | 0 <= i < |submissions.items| :: WellFormedEntry(submissions.items[i])
    ensures ValidateSubmission(studentName, submissions) == Err(MissingSubmissionMessage) <==>
              !Truthy(studentName) || submissions.NotAnArray? || |submissions.items| == 0
  {
  }

  // ---------------------------------------------------------------- the evaluation prompt

  const EvaluationHeader := "Evaluate the student's answers based on the questions provided.\n\n"

  /** The line added for the question at `index` (test.route.ts:223);
      questions are numbered from 1. */
  function QuestionLine(index: nat, qa: QA): string
  {
    "Question " + NatToString(index + 1) + ": " + qa.question + "\n"
  }

  /** The line added for the answer at `index` (test.route.ts:224). */
  function AnswerLine(index: nat, qa: QA): string
  {
    "Student Answer " + NatToString(index + 1) + ": " + qa.answer + "\n\n"
  }

  /** `evaluationContent` once the pairs `qas` have been added. */
  function EvaluationContent(qas: seq<QA>): string
    decreases |qas|
  {
    if qas == [] then EvaluationHeader
    else
      var k := |qas| - 1;
      EvaluationContent(qas[..k]) + QuestionLine(k, qas[k]) + AnswerLine(k, qas[k])
  }

  /** The `forEach` of test.route.ts:221-225. */
  method BuildEvaluationContent(qas: seq<QA>) returns (content: string)
    ensures content == EvaluationContent(qas)
  {
    content := EvaluationHeader;
    for index := 0 to |qas|
      invariant content == EvaluationContent(qas[..index])
    {
      assert qas[..index + 1][..index] == qas[..index];
      content := content + QuestionLine(index, qas[index]);
      content := content + AnswerLine(index, qas[index]);
    }
    assert qas[..|qas|] == qas;
  }

  /** Every question and every answer appears in the evaluation text under
      its own number. */
  lemma {:induction false} EvaluationMentionsEveryPair(qas: seq<QA>, i: nat)
    requires i < |qas|
    ensures Contains(EvaluationContent(qas), QuestionLine(i, qas[i]))
    ensures Contains(EvaluationContent(qas), AnswerLine(i, qas[i]))
    decreases |qas|
  {
    var k := |qas| - 1;
    var front := EvaluationContent(qas[..k]);
    var q := QuestionLine(k, qas[k]);
    var a := AnswerLine(k, qas[k]);
    if i == k {
      ContainsSuffix(front, q);
      ContainsExtend(front + q, a, q);
      ContainsSuffix(front + q, a);
    } else {
      EvaluationMentionsEveryPair(qas[..k], i);
      assert qas[..k][i] == qas[i];
      ContainsExtend(front, q, QuestionLine(i, qas[i]));
      ContainsExtend(front + q, a, QuestionLine(i, qas[i]));
      ContainsExtend(front, q, AnswerLine(i, qas[i]));
      ContainsExtend(front + q, a, AnswerLine(i, qas[i]));
    }
  }

  /** The evaluation text of a list extends that of each of its prefixes,
      so the pairs appear in list order. */
  lemma {:induction false} EvaluationContentPrefix(qas: seq<QA>, k: nat)
    requires k <= |qas|
    ensures |EvaluationContent(qas[..k])| <= |EvaluationContent(qas)|
    ensures EvaluationContent(qas)[..|EvaluationContent(qas[..k])|] == EvaluationContent(qas[..k])
    decreases |qas| - k
  {
    if k < |qas| {
      EvaluationContentPrefix(qas, k + 1);
      assert qas[..k + 1][..k] == qas[..k];
      var a := EvaluationContent(qas[..k]);
      var b := EvaluationContent(qas[..k + 1]);
      assert b == a + QuestionLine(k, qas[k]) + AnswerLine(k, qas[k]);
      PrefixOfPrefix(a, QuestionLine(k, qas[k]), AnswerLine(k, qas[k]), EvaluationContent(qas));
    } else {
      assert qas[..k] == qas;
    }
  }

  /** A text that starts with `a + x + y` starts with `a`. */
  lemma PrefixOfPrefix(a: string, x: string, y: string, c: string)
    requires |a + x + y| <= |c| && c[..|a + x + y|] == a + x + y
    ensures |a| <= |c| && c[..|a|] == a
  {
    assert c[..|a|] == c[..|a + x + y|][..|a|];
  }

  const PromptOpening := "\n          "

  /** The fixed lines after the evaluation text (test.route.ts:229-233). */
  const PromptInstructions :=
    "\n\n"
    + "          Based on the questions and the student's answers, provide a single overall score for this submission.\n"
    + "          The score MUST be a single integer number between 0 and 100 (inclusive).\n"
    + "          Respond ONLY with the numeric score. Do NOT include any other text, explanations, symbols (like '/100' or '%'), or formatting. Just the number.\n"
    + "        "

  /** The prompt sent for evaluation (test.route.ts:227-233). */
  function EvaluationPrompt(content: string): string
  {
    PromptOpening + content + PromptInstructions
  }

  /** The prompt carries the evaluation text whole. */
  lemma PromptHoldsContent(content: string)
    ensures Contains(EvaluationPrompt(content), content)
  {
    var opening, tail := PromptOpening, PromptInstructions;
    assert content[0..][..|content|] == content;
    ContainsWithin(opening, content, tail, content);
  }

  // ---------------------------------------------------------------- the score

  const AiFailedTag := "AI failed"
  const ScoreFormatTag := "AI returned an invalid" + " score format"
  const NotFoundTag := "Test not found"

  const EmptyEvaluationDetail := " to evaluate the submission" + " (empty response)."
  const EmptyEvaluationMessage := AiFailedTag + EmptyEvaluationDetail
  const InvalidScoreMessage := ScoreFormatTag + "."

  /** test.route.ts:246-256: the trimmed reply, read with
      `parseInt(scoreText, 10)`, must be an integer in 0..100. */
  function ValidateScore(responseText: string): Result<int, string>
  {
    var scoreText := Trim(responseText);
    if scoreText == "" then Err(EmptyEvaluationMessage)
    else match ParseInt(scoreText)
      case None => Err(InvalidScoreMessage)
      case Some(score) => if score < 0 || score > 100 then Err(InvalidScoreMessage) else Ok(score)
  }

  /** A score is accepted exactly when the trimmed reply is non-empty and
      `parseInt` reads an integer between 0 and 100 from it; that integer is
      the score. */
  lemma ScoreAcceptedIff(responseText: string)
    ensures ValidateScore(responseText).Ok? <==>
              var p := ParseInt(Trim(responseText));
              Trim(responseText) != "" && p.Some? && 0 <= p.value <= 100
    ensures ValidateScore(responseText).Ok? ==>
              ValidateScore(responseText).value == ParseInt(Trim(responseText)).value
              && 0 <= ValidateScore(responseText).value <= 100
  {
  }

  /** Trimming a text that starts with a digit keeps all of a leading
      digit run and cuts only from the text after it. */
  lemma TrimAfterDigits(digits: string, rest: string)
    requires |digits| >= 1 && AllDigits(digits)
    ensures var t := Trim(digits + rest);
            |digits| <= |t| <= |digits| + |rest| && t == digits + rest[..|t| - |digits|]
  {
    var s := digits + rest;
    assert s[0] == digits[0];
    assert LeadingSpaces(s) == 0;
    TrimShape(s);
    var t := Trim(s);
    assert s[0..|t|] == t;
    assert forall j | |t| <= j < |s| :: IsSpace(s[j]) by {
      assert forall j | |t| <= j < |s| :: s[j] == s[|t|..][j - |t|];
    }
    assert !IsSpace(s[|digits| - 1]);
    assert |t| >= |digits|;
    assert s[..|t|] == digits + rest[..|t| - |digits|];
  }

  /** A reply that starts with a number from 0 to 100 scores that number,
      whatever non-digit text follows. */
  lemma ScoreReadsLeadingNumber(n: nat, rest: string)
    requires n <= 100
    requires rest == [] || !IsDigit(rest[0])
    ensures ValidateScore(NatToString(n) + rest) == Ok(n)
  {
    var d := NatToString(n);
    TrimAfterDigits(d, rest);
    var t := Trim(d + rest);
    var tail := rest[..|t| - |d|];
    assert tail == [] || tail[0] == rest[0];
    ParseIntDigitsThenJunk(d, tail);
    assert t == d + tail && t != "";
    assert ParseInt(t) == Some(n);
    ScoreAcceptedIff(d + rest);
  }

  /** The reply "85/100" scores 85. */
  lemma ScoreOfFraction()
    ensures ValidateScore("85/100") == Ok(85)
  {
    assert NatToString(85) == "85";
    assert "85" + "/100" == "85/100";
    ScoreReadsLeadingNumber(85, "/100");
  }

  /** The status the catch block of test.route.ts:277-289 answers with;
      `validationError` stands for `error.name === 'ValidationError'`. */
  function SubmitErrorStatus(message: string, validationError: bool): nat
  {
    if Contains(message, NotFoundTag) then 404
    else if Contains(message, AiFailedTag) || Contains(message, ScoreFormatTag) then 502
    else if validationError then 400
    else 500
  }

  /** A message that starts with `tag` and has no 'T' maps to 502 when
      `tag` is one of the two substrings the handler sends to 502. */
  lemma TaggedMessageIsBadGateway(tag: string, rest: string, validationError: bool)
    requires tag == AiFailedTag || tag == ScoreFormatTag
    requires 'T' !in rest
    ensures SubmitErrorStatus(tag + rest, validationError) == 502
  {
    assert 'T' !in AiFailedTag && 'T' !in ScoreFormatTag;
    ContainsPrefix(tag, rest);
    assert NotFoundTag[0] == 'T';
    LacksFirstChar(tag + rest, NotFoundTag);
  }

  /** Every score error is answered with 502 Bad Gateway. */
  lemma ScoreErrorsAreBadGateway(responseText: string, validationError: bool)
    requires ValidateScore(responseText).Err?
    ensures SubmitErrorStatus(ValidateScore(responseText).error, validationError) == 502
  {
    if Trim(responseText) == "" {
      assert 'T' !in EmptyEvaluationDetail;
      TaggedMessageIsBadGateway(AiFailedTag, EmptyEvaluationDetail, validationError);
    } else {
      TaggedMessageIsBadGateway(ScoreFormatTag, ".", validationError);
    }
  }

  // ---------------------------------------------------------------- POST /submit/:hash

  /** A stored test submission. */
  datatype TestSubmission = TestSubmission(
    studentName: Value, testHash: string,
    questions: seq<string>, answers: seq<string>, score: int,
    evaluationPrompt: string, evaluationResponse: string)

  function Questions(qas: seq<QA>): (r: seq<string>)
    ensures |r| == |qas| && forall i | 0 <= i < |qas| :: r[i] == qas[i].question
  {
    seq(|qas|, i requires 0 <= i < |qas| => qas[i].question)
  }

  function Answers(qas: seq<QA>): (r: seq<string>)
    ensures |r| == |qas| && forall i | 0 <= i < |qas| :: r[i] == qas[i].answer
  {
    seq(|qas|, i requires 0 <= i < |qas| => qas[i].answer)
  }

  /** `POST /submit/:hash` (test.route.ts:192-290). `testExists` is the
      result of the lookup by hash and `responseText` the AI's reply to the
      evaluation prompt. The stored questions and answers are the request's,
      position by position, and the score lies in 0..100. */
  method SubmitTest(hash: string, studentName: Value, submissions: SubmissionsField,
                    testExists: bool, responseText: string)
    returns (status: nat, saved: Option<TestSubmission>)
    ensures ValidateSubmission(studentName, submissions).Err? ==> status == 400 && saved.None?
    ensures ValidateSubmission(studentName, submissions).Ok? && !testExists ==> status == 404 && saved.None?
    ensures ValidateSubmission(studentName, submissions).Ok? && testExists && ValidateScore(responseText).Err? ==>
              status == 502 && saved.None?
    ensures ValidateSubmission(studentName, submissions).Ok? && testExists && ValidateScore(responseText).Ok? ==>
              var qas := ValidateSubmission(studentName, submissions).value;
              status == 201
              && saved == Some(TestSubmission(studentName, hash, Questions(qas), Answers(qas),
                                              ValidateScore(responseText).value,
                                              EvaluationPrompt(EvaluationContent(qas)),
                                              Trim(responseText)))
    ensures saved.Some? ==>
              && submissions.Entries?
              && |saved.value.questions| == |submissions.items| == |saved.value.answers|
              && (forall i | 0 <= i < |submissions.items| ::
                    submissions.items[i] == Entry(Str(saved.value.questions[i]), Str(saved.value.answers[i])))
              && 0 <= saved.value.score <= 100
  {
    var validated := ValidateSubmission(studentName, submissions);
    if validated.Err? {
      return 400, None;
    }
    if !testExists {
      return 404, None;
    }
    var qas := validated.value;
    var content := BuildEvaluationContent(qas);
    var prompt := EvaluationPrompt(content);
    var scored := ValidateScore(responseText);
    match scored
    case Err(m) =>
      ScoreErrorsAreBadGateway(responseText, false);
      status, saved := SubmitErrorStatus(m, false), None;
    case Ok(score) =>
      ScoreAcceptedIff(responseText);
      status := 201;
      saved := Some(TestSubmission(studentName, hash, Questions(qas), Answers(qas), score, prompt, Trim(responseText)));
  }

  // ---------------------------------------------------------------- POST /export

  /** A stored submission as the export query projects it. */
  datatype ResultRow = ResultRow(studentName: Value, score: Value)

  /** `submissions.filter(sub => typeof sub.score === 'number')`. */
  function ScoredRows(rows: seq<ResultRow>): seq<ResultRow>
    decreases |rows|
  {
    if rows == [] then []
    else ScoredRows(rows[..|rows| - 1]) + (if rows[|rows| - 1].score.Num? then [rows[|rows| - 1]] else [])
  }

  /** The filter keeps exactly the rows with a numeric score, and no more
      rows than it was given. */
  lemma {:induction false} ScoredRowsKeepsNumeric(rows: seq<ResultRow>)
    ensures |ScoredRows(rows)| <= |rows|
    ensures forall x :: x in ScoredRows(rows) <==> x in rows && x.score.Num?
    decreases |rows|
  {
    if rows != [] {
      var front := rows[..|rows| - 1];
      ScoredRowsKeepsNumeric(front);
      assert rows == front + [rows[|rows| - 1]];
    }
  }

  /** The status of `POST /export` (test.route.ts:292-344). `owned` is
      whether the caller owns a test with that hash, `rows` the stored
      submissions for it. The CSV body is not modelled. */
  function ExportStatus(hash: Value, owned: bool, rows: seq<ResultRow>): nat
  {
    if !Truthy(hash) then 400
    else if !owned then 404
    else if rows == [] then 404
    else if ScoredRows(rows) == [] then 404
    else 200
  }

  /** The export succeeds exactly when the hash is given, the caller owns
      the test, and at least one submission carries a numeric score. */
  lemma ExportSucceedsIff(hash: Value, owned: bool, rows: seq<ResultRow>)
    ensures ExportStatus(hash, owned, rows) == 200 <==>
              Truthy(hash) && owned && exists i | 0 <= i < |rows| :: rows[i].score.Num?
  {
    ScoredRowsKeepsNumeric(rows);
    if Truthy(hash) && owned && exists i | 0 <= i < |rows| :: rows[i].score.Num? {
      var i :| 0 <= i < |rows| && rows[i].score.Num?;
      assert rows[i] in ScoredRows(rows);
    }
    if ScoredRows(rows) != [] {
      assert ScoredRows(rows)[0] in rows;
    }
  }
}
