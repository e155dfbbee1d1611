# Assessly core, modelled in Dafny

Assessly lets a teacher publish assignments and AI-generated tests. Students
open a shared link and submit a PDF or answer the questions. The model covers
the deterministic logic inside the Express handlers and React components:

- the server's parsing of the AI's numbered-question reply;
- its score check;
- the request guards and the error-to-status mapping;
- the record projections and the share hash of `utils.ts`;
- the assignment store's create, delete, list and count operations;
- the client's form state machines, payload builders, validators and
  deadline labels.

Shared foundations:

- `Js` (`js_values.dfy`): JavaScript values and their truthiness. A document
  or request body is a `map<string, Value>`, and a missing key reads as
  `undefined`.
- `JsText` (`js_text.dfy`): `String.prototype.trim` over the ECMAScript
  WhiteSpace and LineTerminator set, which is also the set `\s` matches.
  It also holds `split('\n')`, decimal rendering and `parseInt(s, 10)` as
  section 19.2.5 of ECMA-262 defines it. `None` stands for `NaN`.

There is one module per source file:

- `TestRoute`, `QuestionParser` and `TestSubmit`: `test.route.ts`.
- `Utils`: `utils.ts`.
- `AssignmentRoutes`: `assignment.routes.ts`. Its collections are sequences
  held by the class `AssignmentStore`.
- `StudentSubmission`, `TestQuestions`, `GenerateTest`, `GeneratorModal` and
  `Sidebar`: the React components of the same names. Each has a class whose
  fields are the component's state and whose methods are its handlers.
- `Dashboard` and `SubmissionsPage`: the two pure components, as functions.

The AI service, the database and the browser are outside the model. What
they return is passed in:

- the AI's reply text;
- the result of a lookup;
- the `Math.random` draws;
- a deadline as the number of milliseconds from now;
- the outcome of extracting a file's text.

## Model

| member | source | states |
|---|---|---|
| QuestionParser.QuestionPrefix | Server/src/Routes/test.route.ts:136 | the length of the `^\d+\)\s+` match, if any, lies within the line |
| QuestionParser.QuestionPrefixIsMatch | Server/src/Routes/test.route.ts:136 | what is found is a digit run, then `)`, then at least one whitespace character |
| QuestionParser.QuestionPrefixIsGreedy | Server/src/Routes/test.route.ts:136 | the match stops at the end of the line or before a non-whitespace character (the greedy `\s+`) |
| QuestionParser.QuestionPrefixFindsEveryMatch | Server/src/Routes/test.route.ts:136 | every way the pattern can match a line is found, and none is longer than the one returned |
| QuestionParser.QuestionTextIsRemainder | Server/src/Routes/test.route.ts:139-150 | the "matched format but had no text" branch can never be taken; an accepted question is the trimmed line without its prefix, non-empty and trimmed |
| QuestionParser.Classify | Server/src/Routes/test.route.ts:138-154 | one verdict per line, in line order |
| QuestionParser.ExtractQuestions | Server/src/Routes/test.route.ts:138-154 | the loop's two arrays equal the questions and the line errors of the classified lines |
| QuestionParser.LineErrorsIffMalformed | Server/src/Routes/test.route.ts:151-153 | there is no line error exactly when no line is malformed |
| QuestionParser.EntriesCountNonBlankLines | Server/src/Routes/test.route.ts:140-142 | questions plus errors number the non-blank lines, so a blank line adds neither |
| QuestionParser.NonBlankZeroIff | Server/src/Routes/test.route.ts:140-142 | no entry is produced exactly when every line is blank |
| QuestionParser.QuestionsOfQuestionLines | Server/src/Routes/test.route.ts:144-147 | when every line is a question, the questions are those lines' texts in order |
| QuestionParser.NonBlankReplyHasNonBlankLine | Server/src/Routes/test.route.ts:133 | a reply that is not blank after trimming has a non-blank line |
| QuestionParser.BlankLinesAreSpace | Server/src/Routes/test.route.ts:139-142 | lines classified blank consist of whitespace only |
| QuestionParser.JoinAllSpace | Server/src/Routes/test.route.ts:133 | joining whitespace-only lines gives whitespace only |
| TestRoute.CreateTest | Server/src/Routes/test.route.ts:34-77 | 400 with the guard's message and nothing created, or 201 with a test holding the body's fields, a whole count of at least 1 (the corrected guard; see "Left out"), the difficulty and the hash drawn from the caller's id (10 characters of the id when the id has at least 10 characters, see `Utils.RandomHashShape`) |
| TestRoute.CreateRejectionCases | Server/src/Routes/test.route.ts:37-48 | each 400 message is given exactly when its condition holds (a falsy field; a count that is not a whole number of at least 1; a difficulty that is not easy, medium or hard), checked in that order |
| TestRoute.GenerateQuestions | Server/src/Routes/test.route.ts:129-168 | the handler's steps compute the parse result |
| TestRoute.GetQuestions | Server/src/Routes/test.route.ts:79-188 | 404 for an unknown test, 200 with the parsed questions, or the status the catch block maps the error to |
| TestRoute.ParseQuestionsOkIff | Server/src/Routes/test.route.ts:129-168 | the parse succeeds exactly when the reply is non-empty, every line is blank or well formed, and the number of questions equals the requested count |
| TestRoute.MalformedLineFailsParse | Server/src/Routes/test.route.ts:151-159 | one malformed line fails the whole parse with the format error; no partial list is returned |
| TestRoute.NoQuestionsBranchUnreachable | Server/src/Routes/test.route.ts:161-163 | "Could not extract any questions" cannot be thrown: a non-blank reply yields a question or a line error |
| TestRoute.ParsedQuestionsAreLineRemainders | Server/src/Routes/test.route.ts:136-147 | with no blank line, the questions are the lines in order, each with its prefix cut off after trimming |
| TestRoute.TaggedMessageIsBadGateway | Server/src/Routes/test.route.ts:180-186 | a message starting with "AI failed" or "AI response format", whose remainder holds no 'T' (so it cannot contain "Test not found"), is answered with 502 |
| TestRoute.FormatInvalidIsBadGateway | Server/src/Routes/test.route.ts:180-186 | the invalid-format error is answered with 502 |
| TestRoute.NoQuestionsIsBadGateway | Server/src/Routes/test.route.ts:180-186 | the no-questions error is answered with 502 |
| TestRoute.CountMismatchIsBadGateway | Server/src/Routes/test.route.ts:180-186 | the count-mismatch error is answered with 502 |
| TestRoute.VerdictErrorsAreBadGateway | Server/src/Routes/test.route.ts:156-186 | every error the checks after the loop throw is answered with 502 |
| TestRoute.ParseErrorsAreBadGateway | Server/src/Routes/test.route.ts:129-186 | every error of the parse, the empty reply included, is answered with 502 |
| TestRoute.QuestionsStatusCodes | Server/src/Routes/test.route.ts:178-186 | for a known test a failed parse is answered with 502, never 404 or 500 |
| TestRoute.EveryAcceptedCountIsAttainable | Server/src/Routes/test.route.ts:41-44 | every count the corrected guard accepts is a whole number, and some reply parses into exactly that many questions |
| TestRoute.SampleReplyParses | Server/src/Routes/test.route.ts:129-168 | a reply of n lines "1) Q" parses into n questions "Q" |
| TestRoute.SampleLinesParse | Server/src/Routes/test.route.ts:138-154 | each sample line is the question "Q", and no line is in error |
| TestRoute.ParseQuestionsOfLines | Server/src/Routes/test.route.ts:133-168 | the parse of a non-empty reply is the verdict on its lines' classification |
| TestRoute.SampleKinds | Server/src/Routes/test.route.ts:144-147 | every sample line is classified as the question "Q" |
| TestRoute.SampleReplyLines | Server/src/Routes/test.route.ts:133 | the sample reply is already trimmed, and it splits into the sample lines |
| TestRoute.SampleLineIsQuestion | Server/src/Routes/test.route.ts:136-147 | the line "1) Q" is the question "Q" |
| TestRoute.AsWrittenGuardAcceptsFractionalCount | Server/src/Routes/test.route.ts:41-44 | the guard as written accepts a count of 2.5, which no reply can match |
| TestSubmit.ValidateSubmission | Server/src/Routes/test.route.ts:195-207 | on success, the pairs are the request's entries, position by position, as strings |
| TestSubmit.SubmissionAcceptedIff | Server/src/Routes/test.route.ts:195-207 | accepted exactly when the name is truthy and `submissions` is a non-empty array of entries whose question and answer are strings; the first message is for a missing name or array |
| TestSubmit.BuildEvaluationContent | Server/src/Routes/test.route.ts:221-225 | the `forEach` accumulates the evaluation text |
| TestSubmit.EvaluationMentionsEveryPair | Server/src/Routes/test.route.ts:221-225 | the text holds the numbered question line and the answer line of every pair |
| TestSubmit.EvaluationContentPrefix | Server/src/Routes/test.route.ts:221-225 | the text for the first k pairs is a prefix of the whole text, so the pairs appear in order |
| TestSubmit.PromptHoldsContent | Server/src/Routes/test.route.ts:227-233 | the prompt contains the evaluation text |
| TestSubmit.ScoreAcceptedIff | Server/src/Routes/test.route.ts:246-256 | a score is accepted exactly when the trimmed reply is non-empty and `parseInt` reads an integer in 0..100 from it; that integer is the score |
| TestSubmit.TrimAfterDigits | Server/src/Routes/test.route.ts:246 | trimming a reply that starts with digits keeps the digit run |
| TestSubmit.ScoreReadsLeadingNumber | Server/src/Routes/test.route.ts:246-256 | a number up to 100 followed by anything that does not start with a digit is read as that number |
| TestSubmit.ScoreOfFraction | Server/src/Routes/test.route.ts:252 | "85/100" scores 85 |
| TestSubmit.TaggedMessageIsBadGateway | Server/src/Routes/test.route.ts:277-288 | a message starting with "AI failed" or with the score-format tag, whose remainder holds no 'T' (so it cannot contain "Test not found"), is answered with 502 |
| TestSubmit.ScoreErrorsAreBadGateway | Server/src/Routes/test.route.ts:246-288 | every error of the score check is answered with 502 |
| TestSubmit.Questions | Server/src/Routes/test.route.ts:262 | the stored questions are the submitted ones, in order |
| TestSubmit.Answers | Server/src/Routes/test.route.ts:263 | the stored answers are the submitted ones, in order |
| TestSubmit.SubmitTest | Server/src/Routes/test.route.ts:192-290 | 400, 404 or 502 save nothing; 201 saves the name, the hash, the questions and answers position by position, a score in 0..100, the prompt and the trimmed reply |
| TestSubmit.ScoredRowsKeepsNumeric | Server/src/Routes/test.route.ts:324 | the filter keeps exactly the rows with a numeric score |
| TestSubmit.ExportSucceedsIff | Server/src/Routes/test.route.ts:292-329 | the export succeeds exactly when the hash is given, the caller owns the test and some submission has a numeric score |
| Utils.RandomHash | Server/src/utils/utils.ts:2-8 | the loop builds the hash the draws determine |
| Utils.HashFromDrawsInside | Server/src/utils/utils.ts:2-8 | with every draw inside the id, the hash has one character per draw, the id's character at that draw |
| Utils.RandomHashShape | Server/src/utils/utils.ts:2-8 | for len at most the id's length, the hash has len characters, each `userId[d]` for some d < len |
| Utils.RandomHashWithoutUser | Server/src/utils/utils.ts:2-8 | with an empty id, each draw appends the text "undefined" |
| Utils.CopyAllowed | Server/src/utils/utils.ts:48-52 | the key loop copies the projection onto the allowed keys |
| Utils.FilterObjectProperties | Server/src/utils/utils.ts:39-59 | the output has the input's length and order, each record projected onto the listing keys |
| Utils.ListProjectionShape | Server/src/utils/utils.ts:40-55 | a projected record holds exactly the allowed keys that were defined, with unchanged values; Questions, Description and `__v` never appear |
| Utils.FilterSecondObjectProperties | Server/src/utils/utils.ts:74-104 | the loop, the deletes and the JSON round trip give the share view |
| Utils.ShareViewAgrees | Server/src/utils/utils.ts:84-103 | any object with the copied keys and values, stripped of the hidden keys and sent through JSON, is the share view |
| Utils.ShareViewKeys | Server/src/utils/utils.ts:75-103 | the view holds exactly the seven flags, Title, Deadline and userId that were defined; `_id`, `__v`, hash, Questions and Description never appear |
| Utils.ShareViewUserId | Server/src/utils/utils.ts:86-87 | an ObjectId userId is sent as its string form, and every kept value that is not an ObjectId is sent unchanged |
| Utils.ThirdFilterObjectProperties | Server/src/utils/utils.ts:115-140 | the output has the input's length and order, each record projected onto the summary keys |
| Utils.SummaryProjectionShape | Server/src/utils/utils.ts:115-138 | a summary holds only hash, Title, Deadline, userId, `_id` and Description; no flag and no Questions |
| Utils.FilterNullValues | Server/src/utils/utils.ts:145-156 | the for-in loop computes the record without nulls |
| Utils.WithoutNullsShape | Server/src/utils/utils.ts:145-156 | exactly the keys whose value is not null are kept, with unchanged values; filtering twice changes nothing |
| AssignmentRoutes.NewAssignmentFields | Server/src/Routes/assignment.routes.ts:25-39 | each flag holds the request's value when truthy and false otherwise; the document carries the hash, the owner, the id, the title, the questions and the deadline |
| AssignmentRoutes.FirstOwnedMatch | Server/src/Routes/assignment.routes.ts:83-86 | the first document matching both `_id` and the owner, or none when none matches |
| AssignmentRoutes.DeleteOwnedEffect | Server/src/Routes/assignment.routes.ts:83-90 | with a match exactly one document goes; every non-matching document stays; with no match nothing changes; no document appears |
| AssignmentRoutes.OwnedBy | Server/src/Routes/assignment.routes.ts:54 | the documents returned are exactly the caller's (the same `find({ userId })` as lines 115 and 146) |
| AssignmentRoutes.CountMatchingPositions | Server/src/Routes/assignment.routes.ts:119-121 | the count is the number of submissions whose hash matches the query |
| AssignmentRoutes.DefinedHashesShape | Server/src/Routes/assignment.routes.ts:117 | the list holds exactly the documents' defined hashes, and no more entries than documents |
| AssignmentRoutes.AssignmentStore.constructor | Server/src/Routes/assignment.routes.ts:2 | the store starts with the given collections |
| AssignmentRoutes.AssignmentStore.Generate | Server/src/Routes/assignment.routes.ts:10-48 | 400 with the store unchanged when Title, Questions or Deadline is missing; otherwise 201, the new document appended and its hash returned, drawn from the caller's id (8 characters of the id when the id has at least 8 characters, see `Utils.RandomHashShape`) |
| AssignmentRoutes.AssignmentStore.Delete | Server/src/Routes/assignment.routes.ts:75-108 | 400 without an id, 404 with nothing changed when no owned document matches, otherwise 200 with the owned match removed |
| AssignmentRoutes.AssignmentStore.SubmissionCounts | Server/src/Routes/assignment.routes.ts:118-122 | one count per hash, in the same order, each the number of matching submissions |
| AssignmentRoutes.AssignmentStore.LatestAll | Server/src/Routes/assignment.routes.ts:52-73 | 404 when the caller has no assignment, otherwise their assignments projected onto the listing keys |
| AssignmentRoutes.AssignmentStore.Dashboard | Server/src/Routes/assignment.routes.ts:111-141 | the caller's assignments, and one count for each defined hash among them |
| AssignmentRoutes.AssignmentStore.Latest | Server/src/Routes/assignment.routes.ts:144-166 | 404 when the caller has no assignment, otherwise the summaries and one count per defined hash |
| AssignmentRoutes.AssignmentStore.Share | Server/src/Routes/assignment.routes.ts:169-190 | 404 for an unknown hash, otherwise 200 with the share view of an assignment carrying that hash |
| StudentSubmission.FileVerdictIff | Client/src/pages/StudentSubmission.tsx:85-117 | a file is kept exactly when it is a PDF of at most 2 MiB; a larger PDF gets the size error, and any other type gets the type error |
| StudentSubmission.TicksFromStart | Client/src/pages/StudentSubmission.tsx:96-107 | from 0, progress after n ticks is 5n while n ≤ 20, then 100 with uploading off |
| StudentSubmission.TickKeepsRange | Client/src/pages/StudentSubmission.tsx:98-106 | a tick keeps the progress a multiple of 5 within 0..100, never lowers it, and ends an upload exactly when it reached 100 |
| StudentSubmission.FieldPairs | Client/src/pages/StudentSubmission.tsx:137-146 | the seven student fields with their values, then the hash: the share id, or "null" |
| StudentSubmission.SelectFieldsMembers | Client/src/pages/StudentSubmission.tsx:148-152 | an entry is kept exactly when its key's flag is truthy or it is the hash; kept keys stay distinct |
| StudentSubmission.SubmittedFields | Client/src/pages/StudentSubmission.tsx:137-157 | the hash is always sent; a student field is sent exactly when its flag is truthy; each key appears once |
| StudentSubmission.FormEntries | Client/src/pages/StudentSubmission.tsx:154-159 | one text entry per kept field, in order, then the file under `assignmentFile` |
| StudentSubmission.LabelShape | Client/src/pages/StudentSubmission.tsx:397 | a label is the key with a space before each capital, without the one in front of a leading capital |
| StudentSubmission.LabelRestoresKey | Client/src/pages/StudentSubmission.tsx:397 | taking the spaces out of a label gives back the key |
| StudentSubmission.TwoWordLabel | Client/src/pages/StudentSubmission.tsx:397 | a key of two capitalised words, such as "RollNo", reads as the two words with one space between them |
| StudentSubmission.SpaceCapitalsChars | Client/src/pages/StudentSubmission.tsx:397 | spacing adds only spaces and keeps the last character |
| StudentSubmission.SpaceCapitalsAppend | Client/src/pages/StudentSubmission.tsx:397 | the replacement works character by character |
| StudentSubmission.SpaceCapitalsNoCapitals | Client/src/pages/StudentSubmission.tsx:397 | a key without capitals is unchanged |
| StudentSubmission.SpaceCapitalsWord | Client/src/pages/StudentSubmission.tsx:397 | a capitalised word gets one space in front |
| StudentSubmission.UnspacedAppend | Client/src/pages/StudentSubmission.tsx:397 | removing spaces works piece by piece |
| StudentSubmission.FieldIndex | Client/src/pages/StudentSubmission.tsx:58-64 | each student field has one of the seven positions |
| StudentSubmission.StudentSubmissionPage.constructor | Client/src/pages/StudentSubmission.tsx:49-64 | the page starts loading, with no assignment, file or error, progress 0 and empty fields |
| StudentSubmission.StudentSubmissionPage.Receive | Client/src/pages/StudentSubmission.tsx:68-83 | a loaded assignment is stored; a failure sets the server's message or the fallback; loading ends |
| StudentSubmission.StudentSubmissionPage.SetField | Client/src/pages/StudentSubmission.tsx:412 | only the named field's value changes |
| StudentSubmission.StudentSubmissionPage.HandleFileChange | Client/src/pages/StudentSubmission.tsx:85-121 | an acceptable file is kept, the error cleared and the upload started at 0; a rejected file clears the file and sets the size or type error; no file clears the file |
| StudentSubmission.StudentSubmissionPage.ProgressTick | Client/src/pages/StudentSubmission.tsx:98-107 | the progress advances by one tick, and nothing else changes |
| StudentSubmission.StudentSubmissionPage.FormSubmit | Client/src/pages/StudentSubmission.tsx:123-166 | without a file, the missing-file error and no form; otherwise the form of the selected fields and the file |
| StudentSubmission.StudentSubmissionPage.SubmitFinished | Client/src/pages/StudentSubmission.tsx:168-192 | success marks the status; failure sets the server's message or the fallback; loading ends |
| TestQuestions.SubmitPayloadShape | Client/src/Components/TestQuestions.tsx:89-95 | the payload has the trimmed name and one entry per question, in order, with the trimmed answer or "" |
| TestQuestions.NavigationRoundTrip | Client/src/Components/TestQuestions.tsx:115-125 | next then previous returns unless on the last question, previous then next returns unless on the first, and both stay within range |
| TestQuestions.TestPage.constructor | Client/src/Components/TestQuestions.tsx:7-18 | the page starts loading, on question 0, with no questions, answers or name |
| TestQuestions.TestPage.Mount | Client/src/Components/TestQuestions.tsx:61-66 | it fetches exactly when there is a test id; otherwise it sets the no-id error and stops loading |
| TestQuestions.TestPage.Receive | Client/src/Components/TestQuestions.tsx:29-57 | an array becomes the questions, with one empty answer each; anything else sets the format error |
| TestQuestions.TestPage.AnswerChange | Client/src/Components/TestQuestions.tsx:73-77 | only the given answer changes, and the length stays; questions, index, name, error, loading and view mode are unchanged |
| TestQuestions.TestPage.SetStudentName | Client/src/Components/TestQuestions.tsx:450 | only the name changes; questions, answers, index, error, loading and view mode are unchanged |
| TestQuestions.TestPage.Submit | Client/src/Components/TestQuestions.tsx:79-95 | a blank name blocks the submission; otherwise the payload is built from the questions, answers and name |
| TestQuestions.TestPage.NextQuestion | Client/src/Components/TestQuestions.tsx:115-119 | the index moves forward unless on the last question, and stays on a question |
| TestQuestions.TestPage.PrevQuestion | Client/src/Components/TestQuestions.tsx:121-125 | the index moves back unless on the first question, and stays on a question |
| TestQuestions.TestPage.ToggleViewMode | Client/src/Components/TestQuestions.tsx:127-129 | the view mode flips; questions, answers, index, name, error and loading are unchanged |
| GenerateTest.WithFieldChangesOnlyThatField | Client/src/Components/GenerateTest.tsx:47-50 | setting a field changes that field and no other |
| GenerateTest.StepTwoCount | Client/src/Components/GenerateTest.tsx:74-94 | a count that reads as a number passes only when it is at least 1; a count of blanks passes and is sent as NaN |
| GenerateTest.StepTwoDecimalCount | Client/src/Components/GenerateTest.tsx:74-94 | a decimal count passes exactly when it is at least 1, and is sent as that number |
| GenerateTest.BodyIsTrimmed | Client/src/Components/GenerateTest.tsx:87-94 | the body's title, subject and description are the trimmed, non-blank form texts |
| GenerateTest.GenerateTestDialog.constructor | Client/src/Components/GenerateTest.tsx:18-31 | the dialog starts on step 1 with the blank form |
| GenerateTest.GenerateTestDialog.Open | Client/src/Components/GenerateTest.tsx:33-43 | opening resets the form (difficulty "medium"), the step and both messages; closing changes nothing |
| GenerateTest.GenerateTestDialog.HandleChange | Client/src/Components/GenerateTest.tsx:45-53 | the named field is set, and the error and success messages are cleared |
| GenerateTest.GenerateTestDialog.NextStep | Client/src/Components/GenerateTest.tsx:55-62 | step 2 exactly when title, subject and description are not blank; otherwise the step-one error |
| GenerateTest.GenerateTestDialog.PrevStep | Client/src/Components/GenerateTest.tsx:64-67 | back to step 1 with the error cleared |
| GenerateTest.GenerateTestDialog.Submit | Client/src/Components/GenerateTest.tsx:69-99 | stops with the matching error on a failed guard, a bad date or a missing token; otherwise it yields the body of the form |
| Dashboard.WholeDays | Client/src/Components/Dashboard.tsx:141 | the day count of a positive difference is its number of whole days |
| Dashboard.WholeHours | Client/src/Components/Dashboard.tsx:144 | under a day, the hour count is the number of whole hours, below 24 |
| Dashboard.TimeRemainingCounts | Client/src/Components/Dashboard.tsx:133-146 | the text reads the whole days left when at least one, else the whole hours; the unit is plural exactly when the number exceeds 1 |
| Dashboard.TimeRemainingStartsWithDigit | Client/src/Components/Dashboard.tsx:141-145 | a future deadline's text starts with a digit |
| Dashboard.ColourAgreesWithText | Client/src/Components/Dashboard.tsx:133-157 | red exactly for "Overdue", gray exactly for "No deadline", green only with two or more days left, yellow only with under two days |
| Dashboard.CombineUnzips | Client/src/Components/Dashboard.tsx:122-131 | cards and counts are paired, position by position, only when both are non-empty and equally long; otherwise the previous pairing stays |
| SubmissionsPage.ApproachingIff | Client/src/Components/Submissions.tsx:130-136 | approaching exactly when 0 < diff ≤ three days |
| SubmissionsPage.StatusTextCases | Client/src/Components/Submissions.tsx:139-143 | "Deadline passed" exactly before now, "Deadline approaching" exactly up to three days ahead, "Active" otherwise |
| SubmissionsPage.CountLabels | Client/src/Components/Submissions.tsx:172 | the labels are singular exactly for a count of 1 (the assignment count here, the response count at line 307) |
| GeneratorModal.LinkPayloadFields | Client/src/Components/GeneratorModal.tsx:105-121 | the check boxes under Name..PhoneNumber, the file text as Questions (null without a file), and the title, description and deadline |
| GeneratorModal.PayloadAsStored | Client/src/Components/GeneratorModal.tsx:109-121 | the server accepts the body exactly when there is file text, a title and a deadline, and then stores each check box as its flag |
| GeneratorModal.GeneratorDialog.constructor | Client/src/Components/GeneratorModal.tsx:11-28 | the dialog starts on page 1 with no file and nothing checked |
| GeneratorModal.GeneratorDialog.NextPage | Client/src/Components/GeneratorModal.tsx:34 | the page moves forward only below 3 |
| GeneratorModal.GeneratorDialog.PrevPage | Client/src/Components/GeneratorModal.tsx:35 | the page moves back only above 1 |
| GeneratorModal.GeneratorDialog.ProcessFile | Client/src/Components/GeneratorModal.tsx:44-83 | a PDF or Word file whose text was extracted is kept under its name; a failed extraction or another type leaves empty content and no name; loading ends in every branch |
| GeneratorModal.GeneratorDialog.RemoveFile | Client/src/Components/GeneratorModal.tsx:444-447 | content and name are cleared, and generating is disabled (line 504) |
| GeneratorModal.GeneratorDialog.SetChecked | Client/src/Components/GeneratorModal.tsx:292-364 | only the given check box changes; page, file, loading flag, title, description and deadline are unchanged |
| GeneratorModal.GeneratorDialog.SetDetails | Client/src/Components/GeneratorModal.tsx:219-254 | title, description and deadline take the typed values |
| GeneratorModal.GeneratorDialog.GenerateLink | Client/src/Components/GeneratorModal.tsx:105-121 | the posted body is the payload of the current state |
| Sidebar.Navigation.constructor | Client/src/Components/Sidebar.tsx:13-16 | the home view alone is shown, and the sidebar is closed |
| Sidebar.Navigation.ToggleSidebar | Client/src/Components/Sidebar.tsx:18-20 | the open state flips, and nothing else changes |
| Sidebar.Navigation.HomeClick | Client/src/Components/Sidebar.tsx:22-28 | only the home view is shown, and the sidebar closes |
| Sidebar.Navigation.AssignmentClick | Client/src/Components/Sidebar.tsx:30-36 | only the assignments view is shown, and the sidebar closes |
| Sidebar.Navigation.SubmissionsClick | Client/src/Components/Sidebar.tsx:38-44 | only the submissions view is shown, and the sidebar closes |
| Sidebar.Navigation.TestsClick | Client/src/Components/Sidebar.tsx:46-52 | only the tests view is shown, and the sidebar closes |
| Sidebar.Navigation.LogoutClick | Client/src/Components/Sidebar.tsx:54-57 | the token entry is removed from storage, and every other entry stays |
| JsText.TrimShape | Server/src/Routes/test.route.ts:133-139 | `trim` returns a trimmed infix of its input, with only whitespace cut on either side |
| JsText.TrimIdempotent | Server/src/Routes/test.route.ts:139-145 | trimming twice is trimming once |
| JsText.TrimEmptyIff | Server/src/Routes/test.route.ts:140 | a text trims to "" exactly when it is all whitespace |
| JsText.SplitJoin | Server/src/Routes/test.route.ts:133 | joining the pieces of `split('\n')` gives back the text, and no piece contains the separator |
| JsText.JoinSplit | Server/src/Routes/test.route.ts:133 | splitting a join of separator-free pieces gives back the pieces |
| JsText.NatToString | Client/src/Components/Dashboard.tsx:142-145 | a number is rendered as digits whose decimal value is that number, with no leading zero |
| JsText.ParseIntDigitsThenJunk | Server/src/Routes/test.route.ts:252 | `parseInt` reads the leading digit run and ignores what follows |
| JsText.ParseIntOfNatToString | Server/src/Routes/test.route.ts:252 | `parseInt` reads back a rendered number followed by any text that does not start with a digit |
| JsText.ParseIntNaN | Server/src/Routes/test.route.ts:252 | `parseInt` gives NaN exactly when no digit follows the leading whitespace and optional sign |

## Left out

- The Gemini calls (`generateContent`, file upload and the polling of uploaded files) are outside the model. Their reply text is an input to the parser and the score check.
- The MongoDB/Mongoose layer is outside the model. Collections are in-memory sequences. Not modelled:
  - schema casting and validation errors;
  - the `CastError` 400 branch of delete;
  - every 500 branch for a failed database call.
- AssignmentRoutes.OwnedMatch (and so FirstOwnedMatch and AssignmentStore.Delete): compares the request's `_id` with the stored id text exactly, and only when it is a string. Mongoose casts the `_id` filter (assignment.routes.ts:83-86), so the source also finds an id written in upper-case hex, and a query-operator object such as `{"$ne": null}` matches the caller's first assignment. In both cases the source deletes a document and answers 200; the model answers 404 and deletes nothing.
- Vercel Blob, bcrypt and JWT are not part of this model. The caller's id is a parameter.
- CSV serialisation is not modelled, for the test export (test.route.ts:317-336) and the assignment export (assignment.routes.ts:192-227). The test export is modelled only down to its status.
- The `/tests` listing route (test.route.ts:20-31) is left out: it is a single lookup.
- The 503 branches for a missing AI key are not modelled. The key defaults to the text "null", which is truthy, so they cannot be taken.
- Dates are not parsed. A deadline is the integer number of milliseconds from now. GenerateTest's chosen moment is passed in as its ISO text, or None when it is invalid.
- Timers are not modelled. The progress interval is `ProgressTick`, called once per tick. The redirect and message timeouts, `alert` and navigation are left out.
- Context setters are left out: `setStudentName`, `setOcrOutput`, `setModal` and `triggerRefresh`.
- GenerateTest after the server's answer, the drag-and-drop highlight state and the rendering of `showAllQuestions` are left out.
- The PDF and Word text extraction libraries are outside the model. Their outcome is a parameter of `ProcessFile`.
- GeneratorModal's seven check boxes are a `seq<bool>` in the order Name..PhoneNumber, not seven variables.
- StudentSubmission's seven field values are a `seq<string>` in the same order.
- The `submissionData` object and the `FormData` are ordered sequences of pairs. The keys are distinct, so appending each key once is the same as the object's own order.
- TestRoute.CreateTest: applies the corrected guard `CreateRejection`, which also rejects a count that is not a whole number. The source stores such a test (the schema declares `numQuestions` as a plain Number) and answers 201; the model answers 400 "Number of questions must be a positive integer.". The guard as written is `CreateRejectionAsWritten` (see Findings), and the stored count is a `nat`, so a test with a fractional count, and the count-mismatch 502 that every question request for it would get, are not represented.
- TestQuestions.TestPage.AnswerChange: requires an index within the answers. JavaScript would extend the array for a larger index, which the page never passes.
- JsText.ParseInt: does not model the loss of precision of numbers beyond 2^53. Only results in 0..100, or below 1, matter to the callers.
- Utils.RandomHash: each `Math.random` draw is an input index below `len`, as the source computes it. An index beyond the id appends the text "undefined", as JavaScript's string concatenation does.

## Findings

| source | as written | input that shows it | evidently intended | confidence | as-written member | corrected member |
|---|---|---|---|---|---|---|
| Server/src/Routes/test.route.ts:41-44 | the create guard rejects a count only when it is not a number or is below 1, so a fractional count passes | `numQuestions = 2.5`: the test is created, yet no reply can hold 2.5 questions, so every question request fails the count check (line 165) | a count must be a positive integer, as the 400 message says | not executed | TestRoute.AsWrittenGuardAcceptsFractionalCount | TestRoute.EveryAcceptedCountIsAttainable |
