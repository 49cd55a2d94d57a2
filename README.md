# CBT pages: timed assessment, data centre and reports, modelled in Dafny

This project models the logic inside three pages of a Streamlit computer-based-testing
application. Everything else in those pages is rendering and SQLite access.

- **Assessment Center** (`pages/4_Assessment_Center.py`). This is a per-user session with a
  question index, an answer map, an auto-submit flag and a start time. Each run of the page
  script does the following, in order:
  - arms or reads the countdown;
  - sets up the attempt once;
  - records the answer shown for the current question;
  - moves Previous/Next;
  - on the last question, grades the attempt when Submit is pressed or the time has run out,
    then resets the session.

  `Assessment.Session` is a class with those fields. Its methods change the fields in place.
  Grading is a loop, `Assessment.Grade`, proved against the specification function
  `Assessment.Score`.
- **Data Center** (`pages/3_Data_Center.py`). This page has three pieces of logic:
  - the first-error-wins validation of the subject and user capture forms;
  - the export query builder, which fills a filter dictionary (`DataCenter.SubjectFilters`,
    `DataCenter.UserFilters`) and extends a SQL string and a parameter list in a loop
    (`DataCenter.BuildQuery`);
  - the line-to-row splitting of the Word, Text, RTF and PDF importers.
- **Reports Center** (`pages/5_Reports_Center.py`). This page has three pure pieces:
  - the score band, which is pandas `cut` over right-closed bins;
  - the count / highest / lowest summaries;
  - the title→id and name→id dictionaries, where a later duplicate key wins.

`StrOps` gives the Python string operations the pages rely on:
- `isspace`, `strip` and ASCII `lower`;
- `split(",")` and `"\n".join`;
- `splitlines`, with all of its boundaries and `\r\n` as one boundary;
- `count`.

A Python dictionary that keeps insertion order is modelled as a sequence of entries
(`DataCenter.Filter`) or as a Dafny `map` built from a list of pairs (`Reports.LastWins`).

Modules: `Wrappers` (Option, Result), `StrOps`, `Assessment`, `DataCenter`, `Reports`.

Behaviour of the code that is easy to miss, all of it part of the model:
- **Auto-submit position.** The timer forces a submission only when the index is at the last
  question (pages/4_Assessment_Center.py:107-108). Elsewhere the raised flag waits.
- **First run.** On a session's first run the set-up clears the auto-submit flag that the
  timer has just raised (pages/4_Assessment_Center.py:43-45, 56-59).
- **Whitespace in grading.** Only the user's answer is stripped; the stored correct answer is
  compared as stored. True/False and Yes/No answers are stripped too.
- **Unanswered questions.** An unanswered question reads as `""`. A single-selection,
  True/False, Yes/No or fill-in-the-gap question left unanswered scores its marks when its
  stored correct answer is empty. Theory questions and unknown types never score.
- **Recorded user.** The result is recorded for the hard-coded user `"student001"`
  (pages/4_Assessment_Center.py:130).
- **Timer after a reset.** The reset stores `None` in `start_time`, while the timer is armed
  only when the key is absent. After one submission, every later run of the page with an
  assignment selected fails at the timer subtraction (`Assessment.Session.Render`, outcome `TimerFailed`).

## Model

| member | source | states |
|---|---|---|
| Assessment.KindOf | pages/4_Assessment_Center.py:68-92 | Definition of the question type read from its spelling. Its meaning is stated by `KindOfSpellings`. It is a stand-alone definition: `Question` holds the type already read, and no other member calls it. |
| Assessment.KindOfSpellings | pages/4_Assessment_Center.py:68-94 | Each of the five known question types corresponds to exactly one spelling. Every other spelling is an unknown type. |
| Assessment.TimeUp | pages/4_Assessment_Center.py:41-43 | Definition of `remaining <= 0` on the unclamped difference. `Remaining` is 0 exactly when it holds, and `RemainingNonIncreasing` keeps it once it holds. |
| Assessment.Remaining | pages/4_Assessment_Center.py:41-46 | The remaining time is 0 exactly when `duration*60 - elapsed <= 0`. Otherwise it is that difference. It is never negative. |
| Assessment.RemainingNonIncreasing | pages/4_Assessment_Center.py:41-46 | Later clock readings never show more time left. Once the time is up, it stays up. |
| Assessment.Countdown | pages/4_Assessment_Center.py:49-50 | `divmod(remaining, 60)` gives seconds below 60, and `mins*60 + secs == remaining`. |
| Assessment.Captured | pages/4_Assessment_Center.py:68-94 | An answer is stored exactly for the five known types. A single selection is stored as the chosen option letter itself, one of A-D. True/False and Yes/No are stored as the chosen text itself, one of its two options. Fill-in-the-gap and Theory answers are stored stripped. |
| Assessment.WithCaptured | pages/4_Assessment_Center.py:78-94 | Storing the captured value overwrites or adds only the current question's entry and keeps every other entry. A type that captures nothing leaves the answers unchanged. |
| Assessment.CapturedIsGradedAsStored | pages/4_Assessment_Center.py:114 | The `.strip()` of the grading loop leaves a captured answer unchanged. |
| Assessment.PreviousIndex | pages/4_Assessment_Center.py:98-99 | Previous is a no-op at 0 and otherwise steps back by exactly one. |
| Assessment.NextIndex | pages/4_Assessment_Center.py:102-103 | Next is a no-op at the last index and otherwise steps forward by exactly one. |
| Assessment.NavigationStaysInRange | pages/4_Assessment_Center.py:97-104 | Starting inside the question list, Previous and Next stay inside it. |
| Assessment.NavigationRoundTrip | pages/4_Assessment_Center.py:97-104 | Next undoes Previous, and Previous undoes Next, wherever the step was not disabled. |
| Assessment.Accepts | pages/4_Assessment_Center.py:116-121 | Definition of the per-type comparison: exact for a single selection, after ASCII case folding for True/False, Yes/No and fill-in-the-gap, never for other types. Its consequences are stated by `CaseAndSpaceInsensitive`, `SingleSelectionIsCaseSensitive` and `PaddedKeyNeverMatches`. |
| Assessment.Points | pages/4_Assessment_Center.py:116-122 | Theory questions and questions of unknown type never score. |
| Assessment.ScoreAppend | pages/4_Assessment_Center.py:110-122 | The total over a list extended by one question is the old total plus that question's points. |
| Assessment.ScoreWithinMax | pages/4_Assessment_Center.py:110-124 | With non-negative marks, `0 <= total_score <= max_score`. |
| Assessment.Lookup | pages/4_Assessment_Center.py:114 | Definition of `answers.get(qid, "")`. `MissingAnswerIsEmpty` shows that an absent id grades like `""`. |
| Assessment.Given | pages/4_Assessment_Center.py:114 | Definition of the stripped answer that grading compares. `PointsReadOnlyOwnAnswer` shows that it reads only the question's own entry, and `CapturedIsGradedAsStored` that it leaves a captured value unchanged. |
| Assessment.PointsReadOnlyOwnAnswer | pages/4_Assessment_Center.py:112-114 | A question's points depend only on the answer stored under its own id. |
| Assessment.ScoreReadsOnlyListedAnswers | pages/4_Assessment_Center.py:111-122 | The total depends only on the answers to the listed questions. |
| Assessment.MissingAnswerIsEmpty | pages/4_Assessment_Center.py:114 | With `.get(qid, "")`, an unanswered question is graded exactly like the answer `""`. It never raises. |
| Assessment.CaseAndSpaceInsensitive | pages/4_Assessment_Center.py:118-121 | True/False, Yes/No and fill-in-the-gap answers that agree after stripping and case folding score alike. |
| Assessment.SingleSelectionIsCaseSensitive | pages/4_Assessment_Center.py:116 | For every single-selection question, an answer that differs from the stored one after stripping scores 0. |
| Assessment.CaseFoldedLetterDoesNotScore | pages/4_Assessment_Center.py:116 | `"b"` and `"B"` fold to the same text, yet `"b"` does not answer `"B"`: a case-folded match is not enough. |
| Assessment.UnansweredMatchesEmptyKey | pages/4_Assessment_Center.py:114-121 | A single-selection, True/False, Yes/No or fill-in-the-gap question that is unanswered and whose stored answer is empty scores its full marks. |
| Assessment.PaddedKeyNeverMatches | pages/4_Assessment_Center.py:118-121 | A stored correct answer that ends in whitespace is matched by no answer, because only the user's side is stripped. |
| Assessment.Score | pages/4_Assessment_Center.py:110-122 | Definition of the total as the sum of `Points` over the questions in order. Its properties are stated by `ScoreAppend`, `ScoreWithinMax` and `ScoreReadsOnlyListedAnswers`. |
| Assessment.MaxScore | pages/4_Assessment_Center.py:124 | Definition of `max_score` as the sum of marks over non-Theory questions. Its properties are stated by `MaxScoreAppend` and `ScoreWithinMax`. |
| Assessment.Grade | pages/4_Assessment_Center.py:110-122 | The accumulating loop returns `Score(questions, answers)`. With non-negative marks, the result lies between 0 and `MaxScore`. |
| Assessment.MaxScoreAppend | pages/4_Assessment_Center.py:124 | `max_score` gains a question's marks exactly when the question is not Theory. |
| Assessment.ScoreOfPair | pages/4_Assessment_Center.py:110-124 | For two questions, the total and the maximum are the sums of the two questions' contributions. |
| Assessment.SampleAssignmentScoresFiveOfTen | scripts/add_assessment_tables.py:55-58 | Two single-selection questions worth 5, both keyed "B" and answered "B" and "A", score 5 out of 10. |
| Assessment.TheoryExcludedFromMax | pages/4_Assessment_Center.py:122-124 | A Theory question adds to neither the total nor the maximum. |
| Assessment.Session.constructor | pages/4_Assessment_Center.py:39 | A fresh session has no `q_index` key and no `start_time` key. |
| Assessment.Session.Current | pages/4_Assessment_Center.py:61 | `questions[q_index]` exists exactly when the index is inside the list. |
| Assessment.Session.RunIndex | pages/4_Assessment_Center.py:56-61 | Definition of the index the run reads after the set-up: the stored one, or 0 on a first run. It is what `Begin` leaves, and `Render` is stated in terms of it. |
| Assessment.Session.RunAnswers | pages/4_Assessment_Center.py:56-58 | Definition of the answers after the set-up: the stored ones, or none on a first run. It is what `Begin` leaves, and `Render` is stated in terms of it. |
| Assessment.Session.RunStart | pages/4_Assessment_Center.py:39-41 | Definition of the start time after arming the timer: the stored value (possibly None), or `now` when the key is absent. It is what `Tick` leaves, and `Render` is stated in terms of it. |
| Assessment.Session.RunFlag | pages/4_Assessment_Center.py:43-59 | Definition of the auto-submit flag after the timer and the set-up. It is raised by time-up or an earlier run, and cleared on a first run. It is what `Tick` then `Begin` leave, and `Render` is stated in terms of it. |
| Assessment.Session.Tick | pages/4_Assessment_Center.py:39-50 | The start time is stored only when the key is absent. A stored None makes the subtraction fail. Otherwise the countdown shows `divmod` of the clamped remaining time. The auto-submit flag is raised when the time is up and is never lowered. Nothing else changes. |
| Assessment.Session.Begin | pages/4_Assessment_Center.py:56-59 | Set-up happens only when `q_index` is absent: index 0, no answers, flag cleared. Existing progress is never overwritten. |
| Assessment.Session.Record | pages/4_Assessment_Center.py:61-94 | Recording fails exactly when the index is outside the list. Otherwise the answers become `WithCaptured` of the old answers: only the current question's entry is overwritten with the captured answer, if that type captures one. Nothing else changes. |
| Assessment.Session.Previous | pages/4_Assessment_Center.py:98-99 | The index becomes `PreviousIndex` of the old index. Nothing else changes. |
| Assessment.Session.Next | pages/4_Assessment_Center.py:102-103 | The index becomes `NextIndex` of the old index. Nothing else changes. |
| Assessment.Session.Submit | pages/4_Assessment_Center.py:107-139 | Grading happens exactly at the last index, when Submit is pressed or the flag is set. It records the graded score for `"student001"`. With non-negative marks, the score lies between 0 and `max_score`. Afterwards the index is 0, the answers are empty, the flag is cleared and `start_time` holds None. |
| Assessment.Session.Render | pages/4_Assessment_Center.py:39-139 | Gives the outcome and the new state of one run. A stored start time of None (as after a submission) makes the run fail at the timer and change nothing, and only then. With a live timer, an index past the list fails at indexing, keeping the armed timer and the set-up. Otherwise the on-screen answer is stored first. An enabled Previous or Next then moves by exactly one. At the last question, the button or the raised flag submits the score of the answers including the one just captured, resets the session and stores None as the start time. A run that does not move or submit shows the countdown of the clamped remaining time. Away from the last question, nothing is submitted. |
| DataCenter.Required | pages/3_Data_Center.py:89-94 | Definition of the "X is required." message, also used for the subject at line 36. `ValidationReportsFirstMissing` and `ValidateSubject` state which field it names. |
| DataCenter.FirstMissing | pages/3_Data_Center.py:89-94 | None exactly when every field is filled. Otherwise it names the first empty field. |
| DataCenter.ValidateSubject | pages/3_Data_Center.py:35-36 | A subject is accepted exactly when its name is non-empty. |
| DataCenter.ValidateUser | pages/3_Data_Center.py:89-94 | A user is accepted exactly when User ID, First Name and Last Name are all non-empty. |
| DataCenter.ValidationReportsFirstMissing | pages/3_Data_Center.py:89-94 | The message is "X is required." for the first missing field, in the order User ID, First Name, Last Name. |
| DataCenter.Get | pages/3_Data_Center.py:225-241 | A field is found exactly when some entry holds it. |
| DataCenter.Insert | pages/3_Data_Center.py:230-241 | `d[k] = v` binds k to v and leaves every other key as it was. A new key goes at the end. |
| DataCenter.InsertWellTyped | pages/3_Data_Center.py:230-241 | Assigning a date pair to a `_range` key, or text to any other key, keeps the dictionary well typed. |
| DataCenter.InsertFresh | pages/3_Data_Center.py:238-241 | Assigning a key that is not yet present appends one entry. |
| DataCenter.PutIfGiven | pages/3_Data_Center.py:230-231 | A text filter is added only when its input is non-empty. |
| DataCenter.SubjectFilters | pages/3_Data_Center.py:227-231 | The subjects dictionary holds name, then description, each only if given. |
| DataCenter.UserFilters | pages/3_Data_Center.py:233-241 | The users dictionary holds user_id, email and institution, each only if given, and then always the registration range. |
| DataCenter.IsRangeField | pages/3_Data_Center.py:250 | Definition of `field.endswith("_range")`. `RangeFieldSuffix` shows that the character test is exactly the suffix test. |
| DataCenter.RangeFieldSuffix | pages/3_Data_Center.py:250 | A field is a range field exactly when it is at least six characters long and ends in `"_range"`. |
| DataCenter.Header | pages/3_Data_Center.py:247 | Definition of the query's fixed start. Its placeholders are stated by `HeaderPlaceholders`. |
| DataCenter.Clause | pages/3_Data_Center.py:250-254 | Definition of the clause one filter adds: the BETWEEN clause for a `_range` key, otherwise `AND field LIKE ?`. Its placeholders are stated by `ClausePlaceholders`. |
| DataCenter.Params | pages/3_Data_Center.py:252-255 | Definition of the parameters one filter adds: the start date then the end date, or the text wrapped in `%`. They are tied to the clause's placeholders by `ClausePlaceholders`. |
| DataCenter.Expected | pages/3_Data_Center.py:246-255 | "Query failed" exactly when some range filter lacks a second date. Otherwise the query starts with the header. |
| DataCenter.BuildQuery | pages/3_Data_Center.py:246-255 | The loop builds exactly `Expected`: the header, then one clause per filter in insertion order, or "Query failed" when a range lacks a second date. With no filters, the query is the bare header and the parameter list is empty. |
| DataCenter.PrefixStep | pages/3_Data_Center.py:249-255 | One loop step extends the clauses and parameters of the processed prefix by those of the next filter. |
| DataCenter.ClausesConcat | pages/3_Data_Center.py:249-255 | Clauses and parameters of consecutive filter lists concatenate in order. |
| DataCenter.RangeClausePlaceholders | pages/3_Data_Center.py:251 | The range clause holds two `?`. |
| DataCenter.TextClausePlaceholders | pages/3_Data_Center.py:254 | A text clause holds one `?` when the field name holds none. |
| DataCenter.ClausePlaceholders | pages/3_Data_Center.py:250-255 | Each clause holds as many `?` as the parameters it adds. |
| DataCenter.HeaderPlaceholders | pages/3_Data_Center.py:247 | The header's `?` are exactly those of the table name. |
| DataCenter.PlaceholdersMatchParams | pages/3_Data_Center.py:247-255 | With `?`-free table and field names, the query holds exactly as many `?` as there are parameters. |
| DataCenter.UsersQueryEndsWithRange | pages/3_Data_Center.py:241-252 | A users query succeeds exactly when the range has two dates. It then ends with the BETWEEN clause, and its last two parameters are the start date and then the end date. |
| DataCenter.NotBlank | pages/3_Data_Center.py:145-160 | Definition of `line.strip()` being truthy. `StripEmptyIffAllSpace` makes that "some character is not whitespace", and `KeptLinesExactly` shows that the import keeps exactly those lines. |
| DataCenter.KeptLines | pages/3_Data_Center.py:150 | The kept lines are never more than the lines, and none of them is blank. |
| DataCenter.KeptLinesConcat | pages/3_Data_Center.py:150 | Filtering distributes over concatenation, so order is kept. |
| DataCenter.KeptLinesSingle | pages/3_Data_Center.py:150 | A single line is kept exactly when its stripped form is non-empty. |
| DataCenter.KeptLinesExactly | pages/3_Data_Center.py:145-150 | A line is kept exactly when it occurs and is not blank. |
| DataCenter.Rows | pages/3_Data_Center.py:146-150 | One row per kept line. Each row has at least one field and joins back with "," into its line. |
| DataCenter.RowsRoundTrip | pages/3_Data_Center.py:150 | Re-splitting a joined row gives the row back, and no field holds a comma. |
| DataCenter.PageTexts | pages/3_Data_Center.py:158 | A page without text contributes `""`. |
| DataCenter.BoundaryFreeTextIsOneLine | pages/3_Data_Center.py:159-160 | A text without a line boundary keeps the same lines as the one-line list `[x]`. |
| DataCenter.KeptLinesJoinOneLine | pages/3_Data_Center.py:158-160 | Joining a one-line page to the rest with "\n" keeps that page's lines, then the rest's lines. |
| DataCenter.KeptLinesJoinFinalReturn | pages/3_Data_Center.py:158-160 | The same holds when the page ends in "\r", which the joining "\n" turns into one "\r\n" boundary. |
| DataCenter.KeptLinesJoin | pages/3_Data_Center.py:158-160 | Joining two texts with "\n" keeps the first text's non-blank lines, then the second's. |
| DataCenter.KeptLinesJoinAll | pages/3_Data_Center.py:158-160 | The non-blank lines of the joined text are those of the pages, page by page. |
| DataCenter.TextRows | pages/3_Data_Center.py:148-155 | One row per non-blank line of the text, in order. Each row has at least one field and joins back into a line that occurs in the text. |
| DataCenter.WordRows | pages/3_Data_Center.py:144-146 | One row per non-blank paragraph, in order. Each row has at least one field and joins back into one of the paragraphs. |
| DataCenter.PdfText | pages/3_Data_Center.py:158 | Definition of the joined page texts. Its lines are stated by `PdfKeepsPageLines`. |
| DataCenter.PdfRows | pages/3_Data_Center.py:157-160 | One row per non-blank line of each page, pages in order. Each row has at least one field and joins back into its line. |
| DataCenter.PdfKeepsPageLines | pages/3_Data_Center.py:157-160 | The PDF importer keeps exactly the non-blank lines of each page, in page order. |
| StrOps.TrimStartSuffix | pages/3_Data_Center.py:150 | `lstrip` keeps a suffix and drops only whitespace. |
| StrOps.TrimEndPrefix | pages/3_Data_Center.py:150 | `rstrip` keeps a prefix and drops only whitespace. |
| StrOps.IsSpace | pages/4_Assessment_Center.py:114 | Definition of CPython's `str.isspace` for one character, on which every `strip()` rests. `Strip`, `StripSlice` and `StripEmptyIffAllSpace` are stated in terms of it. |
| StrOps.Strip | pages/4_Assessment_Center.py:90 | `strip()` yields a string that neither starts nor ends with whitespace. |
| StrOps.StripSlice | pages/4_Assessment_Center.py:90 | `strip()` keeps a slice and drops only whitespace around it. |
| StrOps.StripEmptyIffAllSpace | pages/3_Data_Center.py:150 | `line.strip()` is empty exactly when every character is whitespace. |
| StrOps.StripIdempotent | pages/4_Assessment_Center.py:114 | Stripping twice is stripping once. |
| StrOps.Lower | pages/4_Assessment_Center.py:118 | `lower()` keeps the length and folds each character. |
| StrOps.Split | pages/3_Data_Center.py:150 | `split(",")` gives at least one piece, and no piece holds the separator. |
| StrOps.Join | pages/3_Data_Center.py:158 | Definition of `sep.join(parts)`. `JoinSplit` and `SplitJoin` make it the inverse of `Split`, and `KeptLinesJoin` states the lines of a `"\n"` join. |
| StrOps.JoinSplit | pages/3_Data_Center.py:150 | Joining the pieces of a split gives the line back. |
| StrOps.SplitJoin | pages/3_Data_Center.py:150 | Splitting a join of separator-free pieces gives the pieces back. |
| StrOps.SplitLines | pages/3_Data_Center.py:149 | `splitlines()` gives no lines exactly for the empty text, and no line holds a boundary. |
| StrOps.LineEndConcat | pages/3_Data_Center.py:158-159 | The first boundary of `x + z` lies in `x` when `x` has one. |
| StrOps.CountConcat | pages/3_Data_Center.py:249-255 | Counting distributes over concatenation. |
| Reports.Cut | pages/5_Reports_Center.py:98-100 | For increasing edges (pandas raises otherwise), `cut` returns a label exactly when `x` is in some right-closed bin `(e[i], e[i+1]]`, and then that bin's label. Otherwise it returns none. |
| Reports.CutFindsBin | pages/5_Reports_Center.py:98-100 | With increasing edges, `x` gets the label of the one bin that holds it. |
| Reports.BandBins | pages/5_Reports_Center.py:98-100 | The band table for the bins 0, 39, 59, 69, 100. |
| Reports.BandOf | pages/5_Reports_Center.py:98-100 | Fail exactly for (0,39], Pass for (39,59], Merit for (59,69], Distinction for (69,100], and no band for scores ≤ 0 or > 100. |
| Reports.BandMonotone | pages/5_Reports_Center.py:98-100 | A higher score never gets a lower band. |
| Reports.MaxOf | pages/5_Reports_Center.py:57 | `max` is one of the scores and at least every score. |
| Reports.MinOf | pages/5_Reports_Center.py:58 | `min` is one of the scores and at most every score. |
| Reports.Summarize | pages/5_Reports_Center.py:55-58 | There is no summary for no scores. Otherwise the count is the number of scores, and highest ≥ each score ≥ lowest, both attained. |
| Reports.AssignmentSummary | pages/5_Reports_Center.py:46-58 | "Total Students" is the number of records. Highest ≥ every record's score ≥ lowest, both attained. There is nothing for an assignment without records. |
| Reports.StudentSummary | pages/5_Reports_Center.py:192-200 | "Total Assignments" is the number of rows. Best ≥ every score ≥ lowest, both attained. There is nothing without rows. |
| Reports.LastWins | pages/5_Reports_Center.py:178 | Definition of a dictionary comprehension over key/value pairs, later pairs overwriting. `LastWinsKeys`, `LastWinsValue` and `LastWinsFromPairs` state its keys and values. `TitleMap` uses it for the same comprehension at line 31. |
| Reports.LastWinsKeys | pages/5_Reports_Center.py:31 | The keys of a dictionary comprehension are exactly the keys of its pairs. |
| Reports.LastWinsValue | pages/5_Reports_Center.py:178 | A key maps to the value of the last pair that carries it. |
| Reports.LastWinsFromPairs | pages/5_Reports_Center.py:178 | Every binding comes from some pair. |
| Reports.TitleMap | pages/5_Reports_Center.py:31 | Definition of the title→id comprehension. Its keys and values are stated by `TitleMapKeys` and `TitleMapValue`. |
| Reports.TitleMapKeys | pages/5_Reports_Center.py:31-32 | The selectable titles are exactly the assignment titles. A NULL title is one key shared by every untitled assignment. |
| Reports.TitleMapValue | pages/5_Reports_Center.py:31 | A duplicate title selects the id of its last assignment. |
| Reports.SelectedAssignment | pages/5_Reports_Center.py:34-35 | A NULL or empty title selects nothing. Any other title selects the id of an assignment with that title. |
| Reports.StudentMap | pages/5_Reports_Center.py:178 | Definition of the name→id comprehension. Its keys and values are stated by `StudentMapKeys` and `StudentMapValue`. |
| Reports.StudentMapKeys | pages/5_Reports_Center.py:178-179 | The selectable names are exactly the students' names. A NULL name is one key shared by every nameless student. |
| Reports.StudentMapValue | pages/5_Reports_Center.py:178 | A duplicate name selects the user id of the last student listed under it. |
| Reports.SelectedStudent | pages/5_Reports_Center.py:181-182 | A NULL or empty name selects nothing. Any other name selects the user id of a student with that name. |

## Left out

- Rendering, reruns and page flow: all Streamlit output, widgets and `st.rerun()`. A run of the
  Assessment page is one call of `Assessment.Session.Render`, with the widget value and the
  pressed button as parameters.
- The login gate, assignment loading and the Excel/PDF exports: all SQLite access, the inserts
  of the capture and import forms, and the execution of the built query. The assignment
  selection at pages/4_Assessment_Center.py:27-31 is the same dictionary comprehension as
  `Reports.TitleMap`, and `Render` takes the selected id.
- The clock. `time.time()` is an integer `now` passed to `Render`/`Tick`, and both reads in one
  run see the same value. Fractional seconds, and the `int()` truncation of a fractional
  remaining time, are not modelled.
- The result timestamp (`datetime.now().isoformat()`) and the date formatting
  (`isoformat()`) of the query parameters. Dates are opaque strings.
- `StrOps.Lower`: folds ASCII letters only, because full Unicode case mapping is outside the
  model.
- Byte decoding (`decode("utf-8")`), `rtf_to_text`, `pdfplumber`, `python-docx` and
  `pd.read_excel`. These are foreign libraries. The importers start from the text, the
  paragraphs or the page texts they return. A page without text is None.
- The pandas `DataFrame` built from the rows: the padding of short rows and the column naming.
- The `.mean()` averages and the subject-wise summary. These are floating point and SQL
  aggregation.
- Plotly charts and `pd.to_datetime`.
- `DataCenter.BuildQuery`: requires that `_range` keys hold date lists and other keys hold
  text, which is what the page's dictionaries contain. The text of the caught exception after
  "Query failed" is not modelled.
- `DataCenter.PlaceholdersMatchParams`: assumes table and field names without `?`, which holds
  for every name the page uses.
- NULL columns: a question's correct answer and marks and an assignment's duration are never
  NULL here, although the schema allows NULL (scripts/add_assessment_tables.py:15,31-32). With
  NULL, the page raises at `correct.lower()`, `total_score += None` and `sum(...)`, or
  `duration_minutes * 60` (pages/4_Assessment_Center.py:41,117-124). The model has no such
  error outcome.
- `Reports.MaxOf`: pandas skips NaN and the SQL score column is not NULL-checked. Scores are
  integers here.
- `Assessment.Session.Record`: requires the widget value to fit the question type, as the
  framework guarantees by offering only those options. The option texts shown beside the
  letters are not modelled.
