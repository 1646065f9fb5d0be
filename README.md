# Learning platform: parsers, progress bookkeeping and client session controllers

This project models the deterministic core of a personalised learning
platform and proves properties of it. The platform has two parts:

- a FastAPI backend with a language-model tutor;
- a React web client.

The model covers three pieces of the backend:

- **The tutor service** (`ai_tutor.py`, module `AiTutor`):
  - bucketing a difficulty into `easy`, `medium` or `hard`;
  - parsing the model's `QUESTION:`/`SOLUTION:`/`HINTS:` problem replies;
  - parsing its `CORRECT:`/`SCORE:`/`FEEDBACK:` grading replies;
  - extracting the topics of a numbered learning-path reply;
  - assembling the chat prompt from the last three exchanges.
- **The API handlers** (`main.py`, module `Backend`), over an in-memory
  picture of the `users` ids and the `problems`, `progress` and
  `conversations` tables (class `Backend.Database`):
  - updating the per-topic progress counters when an answer is graded (by
    topic id in `submit_answer`, by topic name in `assess_direct`);
  - the progress report;
  - the three-message chat-history window and the stored conversation;
  - the bodies of the problem and learning-path answers.
- **The connection-string normalisation** (`database.py`, module
  `DatabaseUrl`).

The web client has four components. Each becomes a class whose fields are the
component's `useState` fields. Each request handler is split in two:

- a *begin* method validates the input, sets the busy flag and returns the
  request;
- a *complete* method takes the backend's answer (`Reply.Resolved` or
  `Rejected`) and applies it.

Every method is specified by a pure step function on a value of the state.
Lemmas about the step functions and about whole runs of events state what
changes and what does not. The four components are:

- the practice panel (`ProblemGenerator`);
- the tutor chat (`ChatInterface`);
- the learning-path page (`LearningPath`);
- the dashboard (`Dashboard`).

Module `Text` writes out the string primitives these rely on:

- Python `strip`/`lstrip`/`split`/`join`/`replace`;
- `str(int)` and `int(str)`;
- JavaScript `trim` emptiness.

White space is the exact code-point set of each language.

The language model (`AITutor.generate_response`) and the frontend's backend
calls are oracles:

- every parser and handler takes the reply text as a parameter, whatever it
  is (including the error strings the oracle returns instead of raising);
- every *complete* method takes an arbitrary success or failure.

Behaviour of the client code the model keeps as written:

- Handlers apply every reply as it settles; no request carries a token, and
  no late reply is discarded.
- Difficulty and scores are not clamped.
- The chat's Enter key sends while a reply is pending.
- `generateProblem` clears the answer and the assessment before the request,
  not on success.
- A failed dashboard fetch keeps whatever was shown (nothing before the first
  success).
- One `submitAnswer` case has no problem loaded. There the handler throws
  inside its `try` and ends with the busy flag down and no request.

Behaviour of the code that the model makes explicit:

- Text-keyed progress rows have a null `topic_id`, so a problem whose topic is
  null matches all of them. Two such rows make `scalar_one_or_none` raise
  (`Backend.NullTopicMatchesNamedRecords`); the model returns
  `Err(MultipleResultsFound)` and changes nothing.
- A difficulty outside [0, 11) makes `next` raise outside the `try`
  (`Err(StopIteration)` from `generate_practice_problem`). The endpoint runs
  that function in a worker thread, so what the HTTP client then sees is not
  specified by the model.
- `progress.user_id` and `conversations.user_id` are foreign keys to
  `users.id`. A first attempt, or a chat, of a user without a `users` row
  fails at the commit (`Err(IntegrityError)`) and stores nothing; the chat
  prompt has been sent by then.

## Model

| member | source | states |
|---|---|---|
| Text.Strip | learning-platform/backend/ai_tutor.py:105 | `str.strip()` leaves no white space at either end and never lengthens the text |
| Text.StripPadded | learning-platform/backend/ai_tutor.py:108 | stripping white space around an unpadded text gives back exactly that text |
| Text.StripIdempotent | learning-platform/backend/ai_tutor.py:180 | stripping twice is stripping once |
| Text.StripEmpty | learning-platform/frontend/src/components/ProblemGenerator.js:17 | a text trims to nothing exactly when every character is white space; this is the meaning of `Blank`, the `!s.trim()` test |
| Text.LStripChars | learning-platform/backend/ai_tutor.py:180 | `lstrip(chars)` removes exactly the longest prefix made of characters from the set, and the result is a suffix of the input |
| Text.Split | learning-platform/backend/ai_tutor.py:104 | `split(sep)` gives at least one piece; there is exactly one piece iff the separator is absent; no piece holds the separator; joining the pieces with it gives the text back |
| Text.SplitCharCount | learning-platform/backend/ai_tutor.py:114 | splitting on one character gives one piece more than that character's occurrences |
| Text.ReplaceAll | learning-platform/backend/ai_tutor.py:105 | `replace(pat, repl)` is the split on `pat` joined with `repl`, and a text without `pat` is unchanged |
| Text.ReplaceFirst | learning-platform/backend/database.py:17-18 | `replace(pat, repl, 1)` changes nothing without an occurrence, otherwise exactly the first one, with no occurrence before it; it adds no characters beyond those of `repl` |
| Text.IntToString | learning-platform/backend/main.py:302 | `str(n)` is non-empty, made of digits with at most a leading minus sign, and ends in a digit |
| Text.ParseInt | learning-platform/backend/ai_tutor.py:146 | `int()` of a stripped text succeeds exactly on an optional sign followed by at least one decimal digit |
| Text.NatToStringValue | learning-platform/backend/main.py:302 | the digits written for a natural number have exactly its value |
| Text.ParseShownInt | learning-platform/backend/ai_tutor.py:146 | `int(str(n)) == n` for every integer |
| AiTutor.BucketsDisjoint | learning-platform/backend/ai_tutor.py:83-87 | no difficulty lies in two buckets |
| AiTutor.BucketsCover | learning-platform/backend/ai_tutor.py:83-90 | a difficulty lies in some bucket iff it is in [0, 11) |
| AiTutor.DifficultyLevelByRange | learning-platform/backend/ai_tutor.py:83-90 | [0,3) gives `easy`, [3,7) `medium`, [7,11) `hard`; anything else raises `StopIteration` |
| AiTutor.GeneratePracticeProblem | learning-platform/backend/ai_tutor.py:80-121 | the call fails exactly for a difficulty outside [0, 11), with `StopIteration`; otherwise the result is the parse of the model's reply |
| AiTutor.ParseProblemWithoutSolution | learning-platform/backend/ai_tutor.py:116-121 | a reply without `SOLUTION:` is returned whole as the question, with the fixed failure solution and no hints |
| AiTutor.ParseProblemQuestion | learning-platform/backend/ai_tutor.py:104-105 | with a `SOLUTION:`, the question is the text before its first occurrence, with every `QUESTION:` removed, then stripped |
| AiTutor.ParseProblemSections | learning-platform/backend/ai_tutor.py:104-115 | a reply `head SOLUTION: body HINTS: tail` with one `SOLUTION:` and no `HINTS:` in the body gives the stripped, marker-free question, the stripped body as solution, and as hints the `;`-split of the stripped tail up to its next `HINTS:`, if any |
| AiTutor.ParseProblemWithoutHints | learning-platform/backend/ai_tutor.py:107-114 | without `HINTS:` the solution is the stripped rest and the hint list is empty |
| AiTutor.HintListShape | learning-platform/backend/ai_tutor.py:109-114 | an empty hints text gives `[]`; otherwise there are (number of `;`) + 1 hints, none holds `;`, and joining them with `;` restores the text |
| AiTutor.HintsKeepInnerSpaces | learning-platform/backend/ai_tutor.py:114 | hints are not trimmed one by one: `"a; b"` gives `["a", " b"]` |
| AiTutor.StartingWith | learning-platform/backend/ai_tutor.py:145-146 | the result is the lines at exactly the positions of the lines starting with the prefix, in order; nothing is kept iff no line starts with it |
| AiTutor.ParseAssessmentMissingMarker | learning-platform/backend/ai_tutor.py:143-159 | a reply with no `CORRECT:` line, no `SCORE:` line or no `FEEDBACK:` falls back to `{false, 0, reply}` |
| AiTutor.ScoreOfLine | learning-platform/backend/ai_tutor.py:146 | the score field of `SCORE: x` is `x` stripped, when `x` holds no colon |
| AiTutor.VerdictContainsYes | learning-platform/backend/ai_tutor.py:145 | of the verdicts `Yes`, `No` and `Partial`, only `Yes` makes the verdict true |
| AiTutor.ParseFormattedAssessment | learning-platform/backend/ai_tutor.py:143-159 | a reply in the requested three-line format gives the verdict, `int()` of the score field unclamped and the feedback; an unparsable score makes the whole reply fall back |
| AiTutor.ParseAssessmentOfLines | learning-platform/backend/ai_tutor.py:144-153 | wherever the first `CORRECT:` line and the first `SCORE:` line stand, the parse is the verdict of the one, `int()` of the other's field and the first `FEEDBACK:` section, or the fallback when the score does not parse or there is no such section |
| AiTutor.FirstStartingWith | learning-platform/backend/ai_tutor.py:145-146 | the first kept line is the first line of the input that starts with the prefix |
| AiTutor.ParseAssessmentRoundTrip | learning-platform/backend/ai_tutor.py:146-153 | formatting a verdict, any integer score and an unpadded feedback, and parsing the result, gives them back |
| AiTutor.ColonFreeReplyFallsBack | learning-platform/backend/ai_tutor.py:103-159 | a reply without a colon, such as the oracle's timeout text, takes both parsers' fallback results |
| AiTutor.TopicOfLine | learning-platform/backend/ai_tutor.py:178-182 | a line yields a topic only when its stripped form starts with a digit or `-`; the topic is non-empty and stripped |
| AiTutor.TopicOfLineValue | learning-platform/backend/ai_tutor.py:180 | the topic is the stripped text after the longest run of `0123456789.-) ` characters at the start of the stripped line |
| AiTutor.TopicOfLineYields | learning-platform/backend/ai_tutor.py:178-182 | a stripped line starting with a digit or `-` that holds a character neither in `0123456789.-) ` nor white space yields a topic |
| AiTutor.TopicOfLineNumberingOnly | learning-platform/backend/ai_tutor.py:180-182 | a line made only of numbering characters (`1.`, `--`) yields no topic |
| AiTutor.CollectInLineOrder | learning-platform/backend/ai_tutor.py:176-184 | the collected topics are exactly the topics of the qualifying lines, each from its own line, in line order, with no qualifying line skipped |
| AiTutor.TopicsFromLines | learning-platform/backend/ai_tutor.py:176-184 | there are no more topics than lines; every topic is non-empty and stripped; every qualifying line contributes |
| AiTutor.TopicsOfSnoc | learning-platform/backend/ai_tutor.py:177-182 | one more line extends the topics by that line's topic, if it has one |
| AiTutor.CollectTopics | learning-platform/backend/ai_tutor.py:176-184 | the loop's list is the topics of all the lines |
| AiTutor.ExtractTopics | learning-platform/backend/ai_tutor.py:174-184 | the learning path is the topics of the reply's lines |
| AiTutor.LastThree | learning-platform/backend/ai_tutor.py:73 | `history[-3:]` holds the last min(3, n) entries |
| AiTutor.ChatPromptIgnoresOlderHistory | learning-platform/backend/ai_tutor.py:71-76 | history older than the last three entries does not affect the prompt |
| AiTutor.HistoryBlockStart | learning-platform/backend/ai_tutor.py:71-74 | an empty history adds nothing; otherwise the history part opens with a blank line and `Recent conversation:` |
| AiTutor.AfterTopicBlock | learning-platform/backend/ai_tutor.py:67-76 | after the topic part the prompt continues with a blank line and then something other than the topic heading |
| AiTutor.ChatPromptTopicLine | learning-platform/backend/ai_tutor.py:67-76 | the prompt opens with `Current topic: t` and a blank line iff the topic is truthy; otherwise it does not open with the topic heading |
| Backend.RecordedCounts | learning-platform/backend/main.py:206-210 | an update adds exactly one attempt, adds one correct answer iff the answer was correct, sets mastery to correct/attempted, and keeps the record's keys |
| Backend.RecordedConsistent | learning-platform/backend/main.py:206-210 | the update keeps `correct <= attempted` and mastery in [0, 1] |
| Backend.RatioBounds | learning-platform/backend/main.py:210 | a ratio with `0 <= correct <= attempted` lies in [0, 1] |
| Backend.MatchingIndices | learning-platform/backend/main.py:198-204 | the rows selected by user and key are exactly the matching rows, in table order |
| Backend.OneOrNone | learning-platform/backend/main.py:204 | `scalar_one_or_none` gives no row exactly when none matches, raises `MultipleResultsFound` exactly when two rows match, and otherwise gives a matching row that is the only match |
| Backend.FirstAttemptIsFirstUpdate | learning-platform/backend/main.py:212-221 | the record a first attempt creates is the update rule applied to an all-zero record for the same key, and it matches that key |
| Backend.UpsertEffect | learning-platform/backend/main.py:198-221 | the progress step fails exactly when several rows match; otherwise all records stay consistent, non-matching records are unchanged, at most one row is added, every row is unchanged or the key's row, and exactly one row matches the key |
| Backend.UpdateEffect | learning-platform/backend/main.py:206-210 | updating the single matching row keeps the other rows and leaves that row the only match |
| Backend.InsertEffect | learning-platform/backend/main.py:211-221 | with no matching row, the appended first attempt becomes the only match and the old rows stay |
| Backend.NullTopicMatchesNamedRecords | learning-platform/backend/main.py:198-204 | two topic-name records of a user make the lookup by a null topic id fail with `MultipleResultsFound` |
| Common.Positions | learning-platform/backend/main.py:291 | the positions of the elements a filter keeps, exactly those and in increasing order |
| Backend.RecordsOf | learning-platform/backend/main.py:290-293 | the selection is the records at exactly the positions of the user's rows, in table order, and no longer than the table |
| Backend.RecordsOfMembers | learning-platform/backend/main.py:290-293 | every selected record is the user's, and every record of the user is selected |
| Backend.UserProgressShape | learning-platform/backend/main.py:294-309 | `topics_in_progress` is the number of the user's rows, and item k is built from the k-th of them in table order, with its counters and label |
| Backend.AccuracyBounds | learning-platform/backend/main.py:306 | accuracy is in [0, 100], equals 100 × mastery for a consistent record with attempts, and is 0 before any attempt |
| Backend.TopicLabelCases | learning-platform/backend/main.py:302 | the label is the stored name if non-empty, else `Topic <id>` for a non-zero id, else `Unknown`; it is never empty |
| Backend.ConversationsOf | learning-platform/backend/main.py:130-134 | the user's conversations are those at exactly the positions of the user's rows, in table order |
| Backend.RecentHistoryIsLastThree | learning-platform/backend/main.py:130-141 | the history is the user's last (at most) three conversations, oldest first |
| Backend.ChatExtendsHistory | learning-platform/backend/main.py:150-157 | after a chat, the user's next history ends with the exchange just stored |
| Backend.GenerateProblem | learning-platform/backend/main.py:166-180 | the answer carries the parsed question and hints and echoes topic and difficulty, with no solution; an out-of-range difficulty is an error |
| Backend.GenerateLearningPath | learning-platform/backend/main.py:272-286 | the answer echoes subject and level, lists the extracted topics, and sets `total_topics` to their number |
| Backend.UnknownUserInserts | learning-platform/backend/models.py:64 | a user with no rows matches nothing, so the upsert inserts a first attempt: the row whose foreign key fails for an unknown user |
| Backend.Database.RecordAnswer | learning-platform/backend/main.py:198-223 | the progress table becomes the upsert's result, or stays as it was with the lookup's fault, or with `IntegrityError` for a user without a `users` row; the other tables, the consistency of every record and the foreign keys are kept |
| Backend.Database.SubmitAnswer | learning-platform/backend/main.py:183-228 | an unknown problem is `Problem not found` with no change; otherwise the parsed assessment updates progress keyed by the problem's topic id, and an unknown user is `IntegrityError` with no change |
| Backend.Database.AssessDirect | learning-platform/backend/main.py:231-269 | the parsed assessment updates progress keyed by topic name, and an unknown user is `IntegrityError` with no change; nothing else changes |
| Backend.Database.Chat | learning-platform/backend/main.py:128-163 | the prompt uses the user's recent history; for a known user exactly one conversation is appended and the reply carries its 1-based id, for an unknown user the result is `IntegrityError` and nothing is stored |
| ProblemGenerator.AnswerTyped | learning-platform/frontend/src/components/ProblemGenerator.js:167-173 | typing changes only the answer, and only while no assessment is shown |
| ProblemGenerator.GenerateStarted | learning-platform/frontend/src/components/ProblemGenerator.js:16-24 | a blank topic changes nothing and sends nothing; otherwise `loading` is set, answer and assessment are cleared before the request, the problem and hints stay, and the request carries the form |
| ProblemGenerator.GenerateStartsWhileLoading | learning-platform/frontend/src/components/ProblemGenerator.js:120 | the button is disabled while loading, but the handler has no such guard and starts another request |
| ProblemGenerator.GenerateSettled | learning-platform/frontend/src/components/ProblemGenerator.js:25-34 | success stores the problem with hints hidden, failure keeps problem and hint state, `loading` ends false, and nothing else changes |
| ProblemGenerator.SubmitStarted | learning-platform/frontend/src/components/ProblemGenerator.js:37-51 | a blank answer changes nothing; with no problem the handler ends with no request; otherwise `submitting` is set and the request carries user 1, the topic, the question, the answer and the solution |
| ProblemGenerator.SubmitSettled | learning-platform/frontend/src/components/ProblemGenerator.js:52-64 | success shows the graded assessment, marked submitted, and locks the answer; failure keeps the assessment and the answer; `submitting` ends false |
| ProblemGenerator.Reset | learning-platform/frontend/src/components/ProblemGenerator.js:67-72 | problem, assessment, answer and hints are cleared; topic, difficulty, type and the busy flags are untouched |
| ProblemGenerator.HintsToggled | learning-platform/frontend/src/components/ProblemGenerator.js:142-146 | the toggle flips `showHints` and nothing else |
| ProblemGenerator.ToggleTwice | learning-platform/frontend/src/components/ProblemGenerator.js:145 | toggling twice restores the state |
| ProblemGenerator.ResetIdempotent | learning-platform/frontend/src/components/ProblemGenerator.js:67-72 | resetting twice is resetting once |
| ProblemGenerator.FormOnlyChangesByEdits | learning-platform/frontend/src/components/ProblemGenerator.js:16-72 | over any run without form edits, topic, difficulty and type never change |
| ProblemGenerator.AssessmentStaysUntilCleared | learning-platform/frontend/src/components/ProblemGenerator.js:53-72 | without a generate, a reset or a successful grading, the shown assessment stays, and a locked answer can no longer change |
| ProblemGenerator.Generator.constructor | learning-platform/frontend/src/components/ProblemGenerator.js:6-14 | the nine fields start at their initial values |
| ProblemGenerator.Generator.EditForm | learning-platform/frontend/src/components/ProblemGenerator.js:79-117 | the three form fields take the new values |
| ProblemGenerator.Generator.TypeAnswer | learning-platform/frontend/src/components/ProblemGenerator.js:167-173 | the state becomes `AnswerTyped` of the old state |
| ProblemGenerator.Generator.BeginGenerate | learning-platform/frontend/src/components/ProblemGenerator.js:16-24 | the new state and the request are those of `GenerateStarted` |
| ProblemGenerator.Generator.CompleteGenerate | learning-platform/frontend/src/components/ProblemGenerator.js:25-34 | the new state is `GenerateSettled` of the old one |
| ProblemGenerator.Generator.BeginSubmit | learning-platform/frontend/src/components/ProblemGenerator.js:37-51 | the new state and the request are those of `SubmitStarted` |
| ProblemGenerator.Generator.CompleteSubmit | learning-platform/frontend/src/components/ProblemGenerator.js:52-64 | the new state is `SubmitSettled` of the old one |
| ProblemGenerator.Generator.ResetProblem | learning-platform/frontend/src/components/ProblemGenerator.js:67-72 | the new state is `Reset` of the old one |
| ProblemGenerator.Generator.ToggleHints | learning-platform/frontend/src/components/ProblemGenerator.js:145 | the new state is `HintsToggled` of the old one |
| ChatInterface.TopicOrNull | learning-platform/frontend/src/components/ChatInterface.js:29 | the request's topic is null exactly for the empty topic field, and the topic otherwise |
| ChatInterface.SendStarted | learning-platform/frontend/src/components/ChatInterface.js:20-29 | blank input appends nothing and sends nothing; otherwise exactly one learner turn holding the untrimmed input is appended, the input is cleared, `loading` is set, and the request sends that same text |
| ChatInterface.SendSettled | learning-platform/frontend/src/components/ChatInterface.js:30-41 | exactly one tutor turn is appended: the reply on success, the fixed apology on failure; `loading` ends false |
| ChatInterface.KeyPressed | learning-platform/frontend/src/components/ChatInterface.js:44-49 | Enter without Shift is a send; any other key changes nothing |
| ChatInterface.EnterSendsWhileLoading | learning-platform/frontend/src/components/ChatInterface.js:44-49 | while a reply is pending the button is disabled, yet Enter starts a second send and appends a turn |
| ChatInterface.MessagesAppendOnly | learning-platform/frontend/src/components/ChatInterface.js:20-41 | over any run the earlier turns stay a prefix of the log, which grows by one turn per accepted send and per settled request |
| ChatInterface.Component.constructor | learning-platform/frontend/src/components/ChatInterface.js:5-9 | the component starts empty, for the given user |
| ChatInterface.Component.Type | learning-platform/frontend/src/components/ChatInterface.js:110 | only the input changes |
| ChatInterface.Component.SetTopic | learning-platform/frontend/src/components/ChatInterface.js:58 | only the topic changes |
| ChatInterface.Component.BeginSend | learning-platform/frontend/src/components/ChatInterface.js:20-29 | the new state and the request are those of `SendStarted` |
| ChatInterface.Component.KeyDown | learning-platform/frontend/src/components/ChatInterface.js:44-49 | the new state and the request are those of `KeyPressed` |
| ChatInterface.Component.CompleteSend | learning-platform/frontend/src/components/ChatInterface.js:30-41 | the new state is `SendSettled` of the old one |
| LearningPath.PathStarted | learning-platform/frontend/src/components/LearningPath.js:12-18 | a blank subject changes nothing and sends nothing; otherwise `loading` is set and the form is sent as it is, with the previous path kept |
| LearningPath.PathStartsWhileLoading | learning-platform/frontend/src/components/LearningPath.js:74 | the button is disabled while loading, but the handler has no such guard and starts another request |
| LearningPath.PathSettled | learning-platform/frontend/src/components/LearningPath.js:18-28 | success replaces the path wholesale, failure keeps the previous one, `loading` ends false, and the form is kept |
| LearningPath.CardShown | learning-platform/frontend/src/components/LearningPath.js:80-129 | the path card shows iff there is a path with at least one topic; otherwise the loading card shows iff `loading` |
| LearningPath.PathCardSurvivesFailure | learning-platform/frontend/src/components/LearningPath.js:18-28 | a path on screen stays on screen through a new request and its failure |
| LearningPath.Ceil | learning-platform/frontend/src/components/LearningPath.js:94 | `Math.ceil(x)` is the least integer not below `x` |
| LearningPath.EstimatedWeeksTwicePerTopic | learning-platform/frontend/src/components/LearningPath.js:94 | for an integer number of topics the estimate is exactly twice that number |
| LearningPath.NumberedTopics | learning-platform/frontend/src/components/LearningPath.js:99-101 | the shown list keeps the response order, numbered from 1 |
| LearningPath.Component.constructor | learning-platform/frontend/src/components/LearningPath.js:6-10 | the five fields start empty, at level `beginner` |
| LearningPath.Component.EditForm | learning-platform/frontend/src/components/LearningPath.js:41-71 | only the three form fields change |
| LearningPath.Component.BeginPath | learning-platform/frontend/src/components/LearningPath.js:12-18 | the new state and the request are those of `PathStarted` |
| LearningPath.Component.CompletePath | learning-platform/frontend/src/components/LearningPath.js:18-28 | the new state is `PathSettled` of the old one |
| Dashboard.LoadSettled | learning-platform/frontend/src/components/Dashboard.js:13-22 | a report replaces the shown one, a failure keeps what was shown, and `loading` ends false either way |
| Dashboard.ItemLabel | learning-platform/frontend/src/components/Dashboard.js:78 | the label is the topic name if non-empty, else `Topic ` followed by the id (`null` for none) |
| Dashboard.SumsOrdered | learning-platform/frontend/src/components/Dashboard.js:28-29 | with sane rows, `0 <= totalCorrect <= totalProblems` |
| Dashboard.OverallAccuracyBounds | learning-platform/frontend/src/components/Dashboard.js:28-30 | with sane rows, the overall accuracy is in [0, 100], and it is 0 when nothing was attempted |
| Dashboard.FailedFirstFetchShowsNothing | learning-platform/frontend/src/components/Dashboard.js:17-30 | after a failed first fetch there is no report and no loading view; totals, accuracy and topic count are 0; there are no items (the empty state) |
| Dashboard.BackendReportShown | learning-platform/frontend/src/components/Dashboard.js:75-78 | a report the progress endpoint built from consistent records has sane counters, and every label is the endpoint's label |
| Dashboard.LoadingOnlyUntilFirstAnswer | learning-platform/frontend/src/components/Dashboard.js:7-22 | `loading` stays up until some fetch settles, drops then, and is never raised again |
| Dashboard.Component.constructor | learning-platform/frontend/src/components/Dashboard.js:6-7 | no report, and `loading` is true |
| Dashboard.Component.BeginLoad | learning-platform/frontend/src/components/Dashboard.js:13-15 | the fetch is for the given user and changes no state |
| Dashboard.Component.CompleteLoad | learning-platform/frontend/src/components/Dashboard.js:15-21 | the new state is `LoadSettled` of the old one |
| DatabaseUrl.NormalizeDatabaseUrl | learning-platform/backend/database.py:10-18 | an unset or empty setting is the "not set" error; otherwise the result is normalised |
| DatabaseUrl.NormalizedHasNoQuery | learning-platform/backend/database.py:16-18 | the normalised URL holds no `?` |
| DatabaseUrl.QueryIgnored | learning-platform/backend/database.py:16 | everything from the first `?` on is ignored |
| DatabaseUrl.AsyncSchemeHidesShort | learning-platform/backend/database.py:17-18 | after the first rewrite, the second finds `postgres://` only in the rest of the URL |
| DatabaseUrl.ShortSchemeHidesLong | learning-platform/backend/database.py:17-18 | `postgresql://` does not occur in a `postgres://` URL whose rest lacks it, so the first rewrite leaves it alone |
| DatabaseUrl.AsyncSchemeHasNeitherPattern | learning-platform/backend/database.py:17-18 | the replacement scheme contains neither pattern |
| DatabaseUrl.LongSchemeRewritten | learning-platform/backend/database.py:17-18 | `postgresql://rest` becomes `postgresql+asyncpg://rest` |
| DatabaseUrl.ShortSchemeRewritten | learning-platform/backend/database.py:17-18 | `postgres://rest` becomes `postgresql+asyncpg://rest` |
| DatabaseUrl.OtherUrlUnchanged | learning-platform/backend/database.py:16-18 | a non-empty URL with no `?` and neither scheme passes through unchanged |

## Left out

- `AITutor.generate_response`: an HTTP call to the model service. Its reply is
  an arbitrary parameter of every parser. The system prompts and user prompts
  of problem generation, grading and learning paths are not modelled; the chat
  prompt is.
- The async SQLAlchemy engine and sessions, `init_db`, the lifespan migration,
  CORS, uvicorn and FastAPI routing (plumbing). The tables are a map and two
  sequences; commits are the method's return.
- The `users` endpoints and the `root`/`health` handlers: they are plain CRUD
  or constant answers, outside the modelled core. The set of user ids is
  fixed when a `Backend.Database` is built; creating users, and the unique
  username and e-mail columns, are not modelled.
- The `topics.id` foreign keys: a problem's `topic_id` is taken to name an
  existing topic, and the text-keyed rows hold a null one.
- The progress query (learning-platform/backend/main.py:290-292) has no `ORDER BY`, so the database
  may return the user's rows in any order. The model lists them in table
  order; `Backend.UserProgressShape` fixes the report for that order.
- Conversation timestamps and ids.
  - The table's insertion order stands for timestamp order.
  - A new conversation's id is its 1-based position.
  - Equal timestamps, and ids after deletions, are not modelled.
- Problem rows themselves: the generate endpoint stores nothing, and the model
  takes the `problems` table as given.
- The frontend's API client (`api.js`) is abstract: each *complete* method
  takes any success or failure.
  - The panel's grading call names `assessAnswerDirect`, which the client
    module does not define, so in the shipped bundle that call always fails.
    The model does not encode this.
- `alert`, `console` logging, rendering and styles, scrolling, routing, and the
  pages around the components.
- Decimal formatting with `toFixed` and Python's float division. Ratios are
  exact `real` values, and rounding for display is left unspecified.
- Async interleavings and React batching. Handlers are begin/complete pairs,
  so a second begin before the first complete is an ordinary step.
- Backend.Database.Report has no contract of its own; it is `UserProgress` of
  the progress table, whose properties are proved as lemmas.
- Text.ParseInt: models Python `int()` as an optional sign followed by ASCII
  digits. It does not cover underscores, non-ASCII digits or surrounding
  white space (callers strip first).
- Text.IsDigit: `str.isdigit()` is modelled on the ASCII digits only.
- The request's float `difficulty` is a Dafny `real`, so NaN and the
  infinities cannot be passed. The source rejects them with `StopIteration`
  (learning-platform/backend/ai_tutor.py:89-90), as it does any value outside
  [0, 11).
- AiTutor.ExtractTopics: the text of each line is computed by the pure
  `TopicOfLine`, which the loop calls. The per-line strip steps are not
  written out imperatively inside the loop.
- String comparisons are exact comparisons of code points. There is no
  Unicode normalisation or case folding.
