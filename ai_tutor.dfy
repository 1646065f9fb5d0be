/** The deterministic part of the tutoring service: how a difficulty is bucketed,
    how the language model's free-form replies are parsed into problems,
    assessments and learning-path topics, and how the chat prompt is assembled.
    The model itself (`AITutor.generate_response`) is an oracle: every parser
    takes the reply text it returned as an argument, whatever that text is
    (including the error strings it returns instead of raising). */
module AiTutor {
  import opened Common
  import opened Text

  // ---------------------------------------------------------------------------
  // Difficulty bucketing

  /** One `(low, high): level` entry of `difficulty_map`. */
  datatype Bucket = Bucket(low: real, high: real, level: string)

  /** `difficulty_map`, in the dictionary's insertion order. */
  const DifficultyMap: seq<Bucket> :=
    [Bucket(0.0, 3.0, "easy"), Bucket(3.0, 7.0, "medium"), Bucket(7.0, 11.0, "hard")]

  predicate InBucket(b: Bucket, d: real) {
    b.low <= d < b.high
  }

  /** `next(level for (low, high), level in buckets if low <= d < high)`:
      the first matching entry, or `None` where `next` raises. */
  function FirstLevel(buckets: seq<Bucket>, d: real): Option<string> {
    if buckets == [] then None
    else if InBucket(buckets[0], d) then Some(buckets[0].level)
    else FirstLevel(buckets[1..], d)
  }

  /** The difficulty label of `generate_practice_problem`; outside the buckets
      `next` has no default and the `StopIteration` escapes (it is not inside the
      `try`). */
  function DifficultyLevel(difficulty: real): Result<string> {
    match FirstLevel(DifficultyMap, difficulty)
    case Some(level) => Ok(level)
    case None => Err(StopIteration)
  }

  /** The three buckets are pairwise disjoint. */
  lemma BucketsDisjoint(d: real, i: int, j: int)
    requires 0 <= i < |DifficultyMap| && 0 <= j < |DifficultyMap|
    requires InBucket(DifficultyMap[i], d) && InBucket(DifficultyMap[j], d)
    ensures i == j
  {
  }

  /** Every value in [0, 11) lies in some bucket and nothing else does. */
  lemma BucketsCover(d: real)
    ensures (0.0 <= d < 11.0) <==> exists k :: 0 <= k < |DifficultyMap| && InBucket(DifficultyMap[k], d)
  {
    if 0.0 <= d < 3.0 { assert InBucket(DifficultyMap[0], d); }
    else if 3.0 <= d < 7.0 { assert InBucket(DifficultyMap[1], d); }
    else if 7.0 <= d < 11.0 { assert InBucket(DifficultyMap[2], d); }
  }

  /** The label of each range, and the error outside [0, 11). */
  lemma DifficultyLevelByRange(d: real)
    ensures 0.0 <= d < 3.0 ==> DifficultyLevel(d) == Ok("easy")
    ensures 3.0 <= d < 7.0 ==> DifficultyLevel(d) == Ok("medium")
    ensures 7.0 <= d < 11.0 ==> DifficultyLevel(d) == Ok("hard")
    ensures d < 0.0 || d >= 11.0 ==> DifficultyLevel(d) == Err(StopIteration)
  {
    var m := DifficultyMap;
    assert m[1..] == [Bucket(3.0, 7.0, "medium"), Bucket(7.0, 11.0, "hard")];
    assert m[1..][1..] == [Bucket(7.0, 11.0, "hard")];
    assert m[1..][1..][1..] == [];
    assert FirstLevel(m[1..][1..], d) == if 7.0 <= d < 11.0 then Some("hard") else None;
    assert FirstLevel(m[1..], d) == if 3.0 <= d < 7.0 then Some("medium") else FirstLevel(m[1..][1..], d);
  }

  // ---------------------------------------------------------------------------
  // Practice problems

  const QuestionMarker := "QUESTION:"
  const SolutionMarker := "SOLUTION:"
  const HintsMarker := "HINTS:"
  const SolutionFailed := "Solution generation failed"

  /** The dictionary `generate_practice_problem` returns. */
  datatype GeneratedProblem = GeneratedProblem(question: string, solution: string, hints: seq<string>)

  /** Neither section marker can overlap itself. */
  lemma SectionMarkersOverlapFree()
    ensures LastCharUnique(SolutionMarker) && LastCharUnique(HintsMarker)
  {
    LastCharUniqueOf("SOLUTION", ':');
    assert "SOLUTION" + [':'] == SolutionMarker;
    LastCharUniqueOf("HINTS", ':');
    assert "HINTS" + [':'] == HintsMarker;
  }

  /** `hints.split(";") if hints else []`: the pieces are not trimmed. */
  function HintList(hints: string): seq<string> {
    if hints == "" then [] else Split(hints, ";")
  }

  /** The `try` block of `generate_practice_problem`.  The only statement of it
      that can raise is `parts[1]`, an `IndexError` when the reply has no
      `SOLUTION:` marker; the `except` then returns the reply as the question. */
  function ParseProblem(response: string): GeneratedProblem {
    var parts := Split(response, SolutionMarker);
    if |parts| < 2 then GeneratedProblem(response, SolutionFailed, [])
    else
      var question := Strip(Python, ReplaceAll(parts[0], QuestionMarker, ""));
      var solutionAndHints := Split(parts[1], HintsMarker);
      var solution := Strip(Python, solutionAndHints[0]);
      var hints := if |solutionAndHints| > 1 then Strip(Python, solutionAndHints[1]) else "";
      GeneratedProblem(question, solution, HintList(hints))
  }

  /** `generate_practice_problem`: bucket the difficulty (which may raise before
      the model is asked), then parse the model's reply. */
  function GeneratePracticeProblem(difficulty: real, response: string): (r: Result<GeneratedProblem>)
    ensures r.Err? <==> !(0.0 <= difficulty < 11.0)
    ensures r.Err? ==> r.fault == StopIteration
    ensures r.Ok? ==> r.value == ParseProblem(response)
  {
    DifficultyLevelByRange(difficulty);
    match DifficultyLevel(difficulty)
    case Err(e) => Err(e)
    case Ok(_) => Ok(ParseProblem(response))
  }

  /** A reply without `SOLUTION:` is returned whole as the question. */
  lemma ParseProblemWithoutSolution(response: string)
    requires !Contains(response, SolutionMarker)
    ensures ParseProblem(response) == GeneratedProblem(response, SolutionFailed, [])
  {
  }

  /** With a `SOLUTION:` marker, the question is the text before its first
      occurrence, with every `QUESTION:` removed, then stripped. */
  lemma ParseProblemQuestion(response: string)
    requires Contains(response, SolutionMarker)
    ensures ParseProblem(response).question
         == Strip(Python, ReplaceAll(response[..Find(response, SolutionMarker)], QuestionMarker, ""))
  {
  }

  /** A reply laid out as `head SOLUTION: body HINTS: tail`, with one
      `SOLUTION:` and no `HINTS:` in the body, parses into its three
      sections; the hints end at the next `HINTS:`, if the tail has one. */
  lemma ParseProblemSections(head: string, body: string, tail: string)
    requires !Contains(head, SolutionMarker)
    requires !Contains(body + HintsMarker + tail, SolutionMarker)
    requires !Contains(body, HintsMarker)
    ensures ParseProblem(head + SolutionMarker + body + HintsMarker + tail)
         == GeneratedProblem(Strip(Python, ReplaceAll(head, QuestionMarker, "")),
                             Strip(Python, body),
                             HintList(Strip(Python, Split(tail, HintsMarker)[0])))
  {
    var rest := body + HintsMarker + tail;
    ConcatAssoc(head + SolutionMarker, body, HintsMarker);
    ConcatAssoc(head + SolutionMarker, body + HintsMarker, tail);
    SectionMarkersOverlapFree();
    SplitAfter(head, SolutionMarker, rest);
    SplitAbsent(rest, SolutionMarker);
    SplitAfter(body, HintsMarker, tail);
  }

  /** Without a `HINTS:` marker the hint list is empty. */
  lemma ParseProblemWithoutHints(head: string, body: string)
    requires !Contains(head, SolutionMarker) && !Contains(body, SolutionMarker)
    requires !Contains(body, HintsMarker)
    ensures ParseProblem(head + SolutionMarker + body)
         == GeneratedProblem(Strip(Python, ReplaceAll(head, QuestionMarker, "")), Strip(Python, body), [])
  {
    var response := head + SolutionMarker + body;
    assert Split(response, SolutionMarker) == [head, body] by {
      SectionMarkersOverlapFree();
      SplitTwo(head, SolutionMarker, body);
    }
    SplitAbsent(body, HintsMarker);
    ParseProblemOfParts(response, head, body);
  }

  lemma ParseProblemOfParts(response: string, head: string, body: string)
    requires Split(response, SolutionMarker) == [head, body] && Split(body, HintsMarker) == [body]
    ensures ParseProblem(response)
         == GeneratedProblem(Strip(Python, ReplaceAll(head, QuestionMarker, "")), Strip(Python, body), [])
  {
  }

  /** An empty hints text gives no hints; otherwise there is one hint more than
      there are semicolons, no hint holds a semicolon and joining them with
      `;` gives the text back. */
  lemma HintListShape(hints: string)
    ensures hints == "" ==> HintList(hints) == []
    ensures hints != "" ==> |HintList(hints)| == Count(hints, ';') + 1
    ensures hints != "" ==> Join(HintList(hints), ";") == hints
    ensures forall k :: 0 <= k < |HintList(hints)| ==> ';' !in HintList(hints)[k]
  {
    if hints != "" {
      SplitCharCount(hints, ';');
      forall k | 0 <= k < |HintList(hints)|
        ensures ';' !in HintList(hints)[k]
      {
        CharAbsent(HintList(hints)[k], ';');
      }
    }
  }

  /** The hints are not trimmed one by one: only the whole hints text is. */
  lemma HintsKeepInnerSpaces()
    ensures HintList("a; b") == ["a", " b"]
  {
    assert "a; b" == "a" + ";" + " b";
    AbsentChar("a", ";", ';');
    AbsentChar(" b", ";", ';');
    SplitAfter("a", ";", " b");
    SplitAbsent(" b", ";");
  }

  // ---------------------------------------------------------------------------
  // Assessments

  const CorrectMarker := "CORRECT:"
  const ScoreMarker := "SCORE:"
  const FeedbackMarker := "FEEDBACK:"

  /** The dictionary `assess_answer` returns. */
  datatype Assessment = Assessment(isCorrect: bool, score: int, feedback: string)

  /** The `except` branch of `assess_answer`. */
  function Unparsed(response: string): Assessment {
    Assessment(false, 0, response)
  }

  /** The filter of the comprehension: the line starts with the prefix. */
  function LineStarts(prefix: string): string -> bool {
    (l: string) => prefix <= l
  }

  /** `[l for l in lines if l.startswith(prefix)]`: the lines at exactly the
      positions of the lines that start with the prefix, in order. */
  function StartingWith(lines: seq<string>, prefix: string): (r: seq<string>)
    ensures var ix := Positions(lines, LineStarts(prefix));
      |r| == |ix| && forall k :: 0 <= k < |r| ==> r[k] == lines[ix[k]]
    ensures forall k :: 0 <= k < |r| ==> prefix <= r[k]
    ensures r == [] <==> forall k :: 0 <= k < |lines| ==> !(prefix <= lines[k])
  {
    if lines == [] then []
    else
      var init := lines[..|lines| - 1];
      var earlier := StartingWith(init, prefix);
      var last := lines[|lines| - 1];
      assert forall k :: 0 <= k < |init| ==> init[k] == lines[k];
      PositionsSnoc(lines, LineStarts(prefix), earlier);
      if prefix <= last then earlier + [last] else earlier
  }

  /** `l.split(":")[1].strip()` for a line starting with `SCORE:`: the text
      between its first and its second colon. */
  function ScoreText(line: string): string
    requires ScoreMarker <= line
  {
    assert line[5..6] == ScoreMarker[5..6];
    assert OccursAt(line, ":", 5);
    Strip(Python, Split(line, ":")[1])
  }

  /** The `try` block of `assess_answer`: the verdict is whether the first
      `CORRECT:` line contains `Yes`, the score is `int()` of the first `SCORE:`
      line's field, the feedback is the stripped text after the first
      `FEEDBACK:` (up to a second one).  A missing line or marker (`IndexError`)
      or a score `int()` rejects (`ValueError`) gives the `except` result. */
  function ParseAssessment(response: string): Assessment {
    var lines := Split(response, "\n");
    var verdicts := StartingWith(lines, CorrectMarker);
    var scores := StartingWith(lines, ScoreMarker);
    var sections := Split(response, FeedbackMarker);
    if verdicts == [] || scores == [] then Unparsed(response)
    else
      var score := ParseInt(ScoreText(scores[0]));
      if score.None? || |sections| < 2 then Unparsed(response)
      else Assessment(Contains(verdicts[0], "Yes"), score.value, Strip(Python, sections[1]))
  }

  /** Some line of the reply starts with `prefix`. */
  predicate HasLineStarting(response: string, prefix: string) {
    exists l :: l in Split(response, "\n") && prefix <= l
  }

  /** A reply missing any of the three markers is not parsed. */
  lemma ParseAssessmentMissingMarker(response: string)
    requires || !HasLineStarting(response, CorrectMarker)
             || !HasLineStarting(response, ScoreMarker)
             || !Contains(response, FeedbackMarker)
    ensures ParseAssessment(response) == Unparsed(response)
  {
    var lines := Split(response, "\n");
    if !HasLineStarting(response, CorrectMarker) {
      forall k | 0 <= k < |lines| ensures !(CorrectMarker <= lines[k]) {
        assert lines[k] in lines;
      }
      assert StartingWith(lines, CorrectMarker) == [];
    } else if !HasLineStarting(response, ScoreMarker) {
      forall k | 0 <= k < |lines| ensures !(ScoreMarker <= lines[k]) {
        assert lines[k] in lines;
      }
      assert StartingWith(lines, ScoreMarker) == [];
    } else {
      SplitAbsent(response, FeedbackMarker);
    }
  }

  /** The reply format the grading prompt asks for, one field per line. */
  function FormatAssessment(verdict: string, scoreText: string, feedback: string): string {
    VerdictLine(verdict) + "\n" + ScoreLine(scoreText) + "\n" + FeedbackLine(feedback)
  }

  function VerdictLine(verdict: string): string { CorrectMarker + " " + verdict }
  function ScoreLine(scoreText: string): string { ScoreMarker + " " + scoreText }
  function FeedbackLine(feedback: string): string { FeedbackMarker + " " + feedback }

  /** The verdicts the grading prompt offers. */
  const Verdicts: seq<string> := ["Yes", "No", "Partial"]

  lemma StripAfterSpace(c: char, t: string)
    requires IsSpace(Python, c)
    ensures Strip(Python, [c] + t) == Strip(Python, t)
  {
    assert ([c] + t)[1..] == t;
  }

  /** The first two lines of a formatted reply are its verdict and score lines. */
  lemma FormattedLines(verdict: string, scoreText: string, feedback: string)
    requires verdict in Verdicts && '\n' !in scoreText
    ensures var lines := Split(FormatAssessment(verdict, scoreText, feedback), "\n");
      |lines| >= 2 && lines[0] == VerdictLine(verdict) && lines[1] == ScoreLine(scoreText)
  {
    var l1, l2, l3, nl := VerdictLine(verdict), ScoreLine(scoreText), FeedbackLine(feedback), "\n";
    ConcatAssoc(l1 + nl, l2, nl);
    ConcatAssoc(l1 + nl, l2 + nl, l3);
    AbsentChar(l1, nl, '\n');
    AbsentChar(l2, nl, '\n');
    SplitAfter(l1, nl, l2 + nl + l3);
    SplitAfter(l2, nl, l3);
  }

  /** A formatted reply has one `FEEDBACK:`, followed by a space and the feedback. */
  lemma FormattedFeedback(verdict: string, scoreText: string, feedback: string)
    requires verdict in Verdicts && 'F' !in scoreText && !Contains(feedback, FeedbackMarker)
    ensures var sections := Split(FormatAssessment(verdict, scoreText, feedback), FeedbackMarker);
      |sections| == 2 && sections[1] == " " + feedback
  {
    var pre := VerdictLine(verdict) + "\n" + ScoreLine(scoreText) + "\n";
    ConcatAssoc(FeedbackMarker, " ", feedback);
    ConcatAssoc(pre, FeedbackMarker, " " + feedback);
    AbsentChar(pre, FeedbackMarker, 'F');
    PrependNoStart(' ', feedback, FeedbackMarker);
    LastCharUniqueOf("FEEDBACK", ':');
    assert "FEEDBACK" + [':'] == FeedbackMarker;
    SplitTwo(pre, FeedbackMarker, " " + feedback);
  }

  /** The score field of a score line is its text after `SCORE:`, stripped. */
  lemma ScoreOfLine(scoreText: string)
    requires ':' !in scoreText
    ensures ScoreText(ScoreLine(scoreText)) == Strip(Python, scoreText)
  {
    var rest := " " + scoreText;
    assert ScoreLine(scoreText) == "SCORE" + ":" + rest;
    AbsentChar(rest, ":", ':');
    AbsentChar("SCORE", ":", ':');
    SplitTwo("SCORE", ":", rest);
    StripAfterSpace(' ', scoreText);
  }

  /** Only the verdict `Yes` puts `Yes` in the verdict line. */
  lemma VerdictContainsYes(verdict: string)
    requires verdict in Verdicts
    ensures Contains(VerdictLine(verdict), "Yes") <==> verdict == "Yes"
  {
    var line := VerdictLine(verdict);
    if verdict == "Yes" {
      assert OccursAt(line, "Yes", 9);
    } else {
      AbsentChar(line, "Yes", 'Y');
    }
  }

  /** A reply in the requested format is parsed field by field: the verdict is
      `Yes` or not (`Partial` and `No` are both false), the score is whatever
      `int()` makes of its field, not clamped, and an unparsable score makes
      the whole reply unparsed. */
  lemma ParseFormattedAssessment(verdict: string, scoreText: string, feedback: string)
    requires verdict in Verdicts
    requires '\n' !in scoreText && ':' !in scoreText && 'F' !in scoreText
    requires Unpadded(Python, feedback) && !Contains(feedback, FeedbackMarker)
    ensures var parsed := ParseInt(Strip(Python, scoreText));
      ParseAssessment(FormatAssessment(verdict, scoreText, feedback))
        == if parsed.Some?
           then Assessment(verdict == "Yes", parsed.value, feedback)
           else Unparsed(FormatAssessment(verdict, scoreText, feedback))
  {
    var response := FormatAssessment(verdict, scoreText, feedback);
    var lines := Split(response, "\n");
    var verdictRest, scoreRest := " " + verdict, " " + scoreText;
    assert |lines| >= 2 && lines[0] == CorrectMarker + verdictRest && lines[1] == ScoreMarker + scoreRest by {
      FormattedLines(verdict, scoreText, feedback);
      ConcatAssoc(CorrectMarker, " ", verdict);
      ConcatAssoc(ScoreMarker, " ", scoreText);
    }
    assert Split(response, FeedbackMarker)[1] == " " + feedback && |Split(response, FeedbackMarker)| >= 2 by {
      FormattedFeedback(verdict, scoreText, feedback);
    }
    assert !(ScoreMarker <= lines[0]) by {
      assert lines[0][0] != ScoreMarker[0];
    }
    StartsWithItself(CorrectMarker, verdictRest);
    StartsWithItself(ScoreMarker, scoreRest);
    ParseAssessmentOfLines(response, 0, 1);
    assert ScoreText(ScoreMarker + scoreRest) == Strip(Python, scoreText) by {
      ConcatAssoc(ScoreMarker, " ", scoreText);
      ScoreOfLine(scoreText);
    }
    assert Contains(CorrectMarker + verdictRest, "Yes") <==> verdict == "Yes" by {
      ConcatAssoc(CorrectMarker, " ", verdict);
      VerdictContainsYes(verdict);
    }
    assert Strip(Python, " " + feedback) == feedback by {
      StripAfterSpace(' ', feedback);
      StripPadded(Python, "", feedback, "");
      assert "" + feedback + "" == feedback;
    }
  }

  /** Wherever the first verdict line (at `i`) and the first score line (at
      `j`) stand, they and the first `FEEDBACK:` section decide the parse. */
  lemma ParseAssessmentOfLines(response: string, i: nat, j: nat)
    requires var lines := Split(response, "\n");
      && i < |lines| && CorrectMarker <= lines[i] && (forall k :: 0 <= k < i ==> !(CorrectMarker <= lines[k]))
      && j < |lines| && ScoreMarker <= lines[j] && (forall k :: 0 <= k < j ==> !(ScoreMarker <= lines[k]))
    ensures var lines := Split(response, "\n");
      var parsed := ParseInt(ScoreText(lines[j]));
      var sections := Split(response, FeedbackMarker);
      ParseAssessment(response)
        == if parsed.Some? && |sections| >= 2
           then Assessment(Contains(lines[i], "Yes"), parsed.value, Strip(Python, sections[1]))
           else Unparsed(response)
  {
    var lines := Split(response, "\n");
    FirstStartingWith(lines, CorrectMarker, i);
    FirstStartingWith(lines, ScoreMarker, j);
  }

  lemma StartsWithItself(a: string, b: string)
    ensures a <= a + b
  {
  }

  /** The first line starting with `prefix` is the one at `i`, when no earlier one does. */
  lemma FirstStartingWith(lines: seq<string>, prefix: string, i: nat)
    requires i < |lines| && prefix <= lines[i]
    requires forall k :: 0 <= k < i ==> !(prefix <= lines[k])
    ensures StartingWith(lines, prefix) != [] && StartingWith(lines, prefix)[0] == lines[i]
  {
    var ix := Positions(lines, LineStarts(prefix));
    assert LineStarts(prefix)(lines[i]);
    assert i in ix;
    assert LineStarts(prefix)(lines[ix[0]]);
  }

  /** `int(str(n)) == n`: a well-formed reply's score comes back exactly, for
      any integer, including ones outside 0..100. */
  lemma ParseAssessmentRoundTrip(verdict: string, score: int, feedback: string)
    requires verdict in Verdicts
    requires Unpadded(Python, feedback) && !Contains(feedback, FeedbackMarker)
    ensures ParseAssessment(FormatAssessment(verdict, IntToString(score), feedback))
         == Assessment(verdict == "Yes", score, feedback)
  {
    ShownScoreParses(score);
    ShownScoreSafe(score);
    ParseFormattedAssessment(verdict, IntToString(score), feedback);
  }

  /** The text of a score parses back to the score. */
  lemma ShownScoreParses(score: int)
    ensures ParseInt(Strip(Python, IntToString(score))) == Some(score)
  {
    var digits := IntToString(score);
    ShownIntUnpadded(Python, score);
    StripPadded(Python, "", digits, "");
    assert "" + digits + "" == digits;
    ParseShownInt(score);
  }

  /** The text of a score holds no line break, colon or `F`. */
  lemma ShownScoreSafe(score: int)
    ensures var digits := IntToString(score);
      '\n' !in digits && ':' !in digits && 'F' !in digits
  {
    var digits := IntToString(score);
    forall c | c in digits
      ensures IsDigit(c) || c == '-'
    {
      ShownIntChars(score, c);
    }
  }

  /** A reply without a colon, such as the text the oracle returns on a timeout
      (not an exception), reaches the parsers like any reply and takes both
      fallback paths. */
  lemma ColonFreeReplyFallsBack(response: string)
    requires ':' !in response
    ensures ParseProblem(response) == GeneratedProblem(response, SolutionFailed, [])
    ensures ParseAssessment(response) == Unparsed(response)
  {
    AbsentChar(response, SolutionMarker, ':');
    AbsentChar(response, FeedbackMarker, ':');
    ParseAssessmentMissingMarker(response);
  }

  // ---------------------------------------------------------------------------
  // Learning paths

  /** The characters `line.lstrip("0123456789.-) ")` removes. */
  const TopicStripChars: set<char> := {'0', '1', '2', '3', '4', '5', '6', '7', '8', '9', '.', '-', ')', ' '}

  /** The body of the loop in `generate_learning_path` for one line: a stripped
      line that starts with a digit or `-` yields its text after the list
      numbering, if any is left. */
  function TopicOfLine(line: string): (t: Option<string>)
    ensures t.Some? ==> t.value != [] && Unpadded(Python, t.value)
    ensures t.Some? ==> var l := Strip(Python, line); l != [] && (IsDigit(l[0]) || l[0] == '-')
  {
    var l := Strip(Python, line);
    if l != [] && (IsDigit(l[0]) || "-" <= l) then
      var topic := Strip(Python, LStripChars(l, TopicStripChars));
      if topic != [] then Some(topic) else None
    else None
  }

  /** A line that yields a topic gives what follows the longest run of
      numbering characters at the start of the stripped line, stripped. */
  lemma TopicOfLineValue(line: string)
    ensures var l := Strip(Python, line);
      TopicOfLine(line).Some? ==>
        exists i :: 0 <= i < |l| && (forall k :: 0 <= k < i ==> l[k] in TopicStripChars) && l[i] !in TopicStripChars
                 && TopicOfLine(line).value == Strip(Python, l[i..])
  {
    if TopicOfLine(line).Some? {
      var l := Strip(Python, line);
      var u := LStripChars(l, TopicStripChars);
      assert u != [] by {
        if u == [] {
          StripEmpty(Python, u);
        }
      }
      assert u[0] == l[|l| - |u|];
    }
  }

  /** A line whose stripped form starts with a digit or `-` and holds a
      character that is neither numbering nor white space yields a topic. */
  lemma TopicOfLineYields(line: string, k: nat)
    requires var l := Strip(Python, line);
      && l != [] && (IsDigit(l[0]) || l[0] == '-')
      && k < |l| && l[k] !in TopicStripChars && !IsSpace(Python, l[k])
    ensures TopicOfLine(line).Some?
  {
    var l := Strip(Python, line);
    var u := LStripChars(l, TopicStripChars);
    var i := |l| - |u|;
    assert "-" <= l <==> l[0] == '-';
    assert i <= k;
    assert u[k - i] == l[k];
    StripEmpty(Python, u);
  }

  /** A line made of numbering characters only (`1.`, `--`) yields nothing. */
  lemma TopicOfLineNumberingOnly(line: string)
    requires var l := Strip(Python, line); forall k :: 0 <= k < |l| ==> l[k] in TopicStripChars
    ensures TopicOfLine(line).None?
  {
    var l := Strip(Python, line);
    if l != [] {
      assert LStripChars(l, TopicStripChars) == [];
      StripEmpty(Python, []);
    }
  }

  /** The values `f` yields on `lines`, in order, skipping the lines where it
      yields nothing: a filtering list comprehension. */
  function Collect(f: string -> Option<string>, lines: seq<string>): (r: seq<string>)
    ensures |r| <= |lines|
  {
    if lines == [] then []
    else
      var earlier := Collect(f, lines[..|lines| - 1]);
      match f(lines[|lines| - 1])
      case Some(t) => earlier + [t]
      case None => earlier
  }

  /** The indices of the lines on which `f` yields something. */
  function CollectSources(f: string -> Option<string>, lines: seq<string>): seq<nat> {
    if lines == [] then []
    else
      var earlier := CollectSources(f, lines[..|lines| - 1]);
      if f(lines[|lines| - 1]).Some? then earlier + [|lines| - 1] else earlier
  }

  /** The collected values are exactly the yields of the qualifying lines, in
      the order of those lines: each comes from its own line, later values from
      later lines, and no qualifying line is skipped. */
  lemma {:induction false} CollectInLineOrder(f: string -> Option<string>, lines: seq<string>)
    ensures |CollectSources(f, lines)| == |Collect(f, lines)|
    ensures forall k :: 0 <= k < |CollectSources(f, lines)| ==>
      CollectSources(f, lines)[k] < |lines| && f(lines[CollectSources(f, lines)[k]]) == Some(Collect(f, lines)[k])
    ensures forall k, m :: 0 <= k < m < |CollectSources(f, lines)| ==> CollectSources(f, lines)[k] < CollectSources(f, lines)[m]
    ensures forall j :: 0 <= j < |lines| && f(lines[j]).Some? ==> j in CollectSources(f, lines)
  {
    if lines != [] {
      var init := lines[..|lines| - 1];
      CollectInLineOrder(f, init);
      assert forall j :: 0 <= j < |init| ==> init[j] == lines[j];
    }
  }

  /** The topics `generate_learning_path` collects from the reply's lines. */
  function TopicsOf(lines: seq<string>): seq<string> {
    Collect(TopicOfLine, lines)
  }

  /** Every topic is non-empty and stripped, comes from the line at the same
      position among the qualifying lines, and every qualifying line gives one. */
  lemma TopicsFromLines(lines: seq<string>)
    ensures |TopicsOf(lines)| <= |lines|
    ensures forall k :: 0 <= k < |TopicsOf(lines)| ==> TopicsOf(lines)[k] != [] && Unpadded(Python, TopicsOf(lines)[k])
    ensures |CollectSources(TopicOfLine, lines)| == |TopicsOf(lines)|
    ensures forall j :: 0 <= j < |lines| && TopicOfLine(lines[j]).Some? ==> j in CollectSources(TopicOfLine, lines)
  {
    CollectInLineOrder(TopicOfLine, lines);
    var idx := CollectSources(TopicOfLine, lines);
    forall k | 0 <= k < |TopicsOf(lines)|
      ensures TopicsOf(lines)[k] != [] && Unpadded(Python, TopicsOf(lines)[k])
    {
      assert TopicOfLine(lines[idx[k]]) == Some(TopicsOf(lines)[k]);
    }
  }

  /** One more line extends the topics by that line's topic, if any. */
  lemma TopicsOfSnoc(lines: seq<string>, i: nat)
    requires i < |lines|
    ensures TopicsOf(lines[..i + 1])
         == TopicsOf(lines[..i]) + (if TopicOfLine(lines[i]).Some? then [TopicOfLine(lines[i]).value] else [])
  {
    assert lines[..i + 1][..i] == lines[..i];
  }

  /** The loop of `generate_learning_path` over the reply's lines. */
  method CollectTopics(lines: seq<string>) returns (topics: seq<string>)
    ensures topics == TopicsOf(lines)
  {
    topics := [];
    for i := 0 to |lines|
      invariant topics == TopicsOf(lines[..i])
    {
      var topic := TopicOfLine(lines[i]);
      if topic.Some? {
        topics := topics + [topic.value];
      }
      TopicsOfSnoc(lines, i);
    }
    assert lines[..|lines|] == lines;
  }

  /** `generate_learning_path` after the reply: the topics of its lines. */
  method ExtractTopics(response: string) returns (topics: seq<string>)
    ensures topics == TopicsOf(Split(response, "\n"))
  {
    topics := CollectTopics(Split(response, "\n"));
  }


  // ---------------------------------------------------------------------------
  // Chat prompt

  /** One `{"question": ..., "answer": ...}` entry of the conversation history. */
  datatype Exchange = Exchange(question: string, answer: string)

  function ExchangeText(h: Exchange): string {
    "Student: " + h.question + "\nTutor: " + h.answer
  }

  /** Python's `history[-3:]`. */
  function LastThree<T>(history: seq<T>): (recent: seq<T>)
    ensures |recent| == if |history| < 3 then |history| else 3
    ensures recent == history[|history| - |recent|..]
  {
    if |history| <= 3 then history else history[|history| - 3..]
  }

  /** Python truthiness of an optional string: present and non-empty. */
  predicate Truthy(s: Option<string>) {
    s.Some? && s.value != ""
  }

  /** The line naming the current topic. */
  function TopicLine(topic: string): string {
    "\n\nCurrent topic: " + topic
  }

  /** The topic part of the context. */
  function TopicBlock(topic: Option<string>): string {
    if Truthy(topic) then TopicLine(topic.value) else ""
  }

  /** The history part of the context: the last three exchanges, each as a
      `Student:` line and a `Tutor:` line. */
  function HistoryBlock(history: seq<Exchange>): string {
    if history == [] then ""
    else HistoryHeading + HistoryLines(LastThree(history))
  }

  const HistoryHeading := "\n\nRecent conversation:\n"

  function HistoryLines(recent: seq<Exchange>): string {
    Join(seq(|recent|, k requires 0 <= k < |recent| => ExchangeText(recent[k])), "\n")
  }

  /** The `context` string `tutor_chat` builds. */
  function ChatContext(topic: Option<string>, history: seq<Exchange>): string {
    TopicBlock(topic) + HistoryBlock(history)
  }

  function QuestionBlock(question: string): string {
    "\n\nStudent's question: " + question + "\n\nYour response:"
  }

  /** The user prompt `tutor_chat` sends to the model. */
  function ChatPrompt(question: string, topic: Option<string>, history: seq<Exchange>): string {
    ChatContext(topic, history) + QuestionBlock(question)
  }

  /** Only the last three history entries reach the prompt. */
  lemma ChatPromptIgnoresOlderHistory(question: string, topic: Option<string>, older: seq<Exchange>, recent: seq<Exchange>)
    requires |recent| >= 3
    ensures ChatPrompt(question, topic, older + recent) == ChatPrompt(question, topic, recent)
  {
    assert (older + recent)[|older + recent| - 3..] == recent[|recent| - 3..];
  }

  lemma QuestionBlockStart(question: string)
    ensures |QuestionBlock(question)| >= 3 && QuestionBlock(question)[..2] == "\n\n" && QuestionBlock(question)[2] == 'S'
  {
  }

  lemma HistoryBlockStart(history: seq<Exchange>)
    ensures history != [] ==> |HistoryBlock(history)| >= 3 && HistoryBlock(history)[..2] == "\n\n" && HistoryBlock(history)[2] == 'R'
    ensures history == [] ==> HistoryBlock(history) == []
  {
    if history != [] {
      HeadingStart(HistoryLines(LastThree(history)));
    }
  }

  lemma HeadingStart(lines: string)
    ensures |HistoryHeading + lines| >= 3
    ensures (HistoryHeading + lines)[..2] == "\n\n" && (HistoryHeading + lines)[2] == 'R'
  {
    assert (HistoryHeading + lines)[..2] == HistoryHeading[..2];
  }

  /** After the topic part the prompt goes on with a blank line and then
      `Recent conversation:` or `Student's question:`. */
  lemma AfterTopicBlock(question: string, history: seq<Exchange>)
    ensures var rest := HistoryBlock(history) + QuestionBlock(question);
      |rest| >= 3 && rest[..2] == "\n\n" && rest[2] != 'C'
  {
    QuestionBlockStart(question);
    HistoryBlockStart(history);
    var h, q := HistoryBlock(history), QuestionBlock(question);
    if history == [] {
      assert h + q == q;
    } else {
      assert (h + q)[..3] == h[..3];
    }
  }

  lemma PrefixBeforeBlank(t: string, rest: string)
    requires |rest| >= 2 && rest[..2] == "\n\n"
    ensures t + "\n\n" <= t + rest
  {
    assert (t + rest)[..|t| + 2] == t + rest[..2];
  }

  lemma NotTopicLine(rest: string)
    requires |rest| >= 3 && rest[2] != 'C'
    ensures !(TopicLine("") <= rest)
  {
    assert TopicLine("")[2] == 'C';
  }

  /** The prompt opens with the topic line, followed by a blank line, exactly
      when the topic is truthy; otherwise it does not start with the topic
      line's heading at all. */
  lemma ChatPromptTopicLine(question: string, topic: Option<string>, history: seq<Exchange>)
    ensures Truthy(topic) ==> TopicLine(topic.value) + "\n\n" <= ChatPrompt(question, topic, history)
    ensures !Truthy(topic) ==> !(TopicLine("") <= ChatPrompt(question, topic, history))
  {
    AfterTopicBlock(question, history);
    var t, h, q := TopicBlock(topic), HistoryBlock(history), QuestionBlock(question);
    ConcatAssoc(t, h, q);
    if Truthy(topic) {
      PrefixBeforeBlank(t, h + q);
    } else {
      NotTopicLine(h + q);
    }
  }
}
