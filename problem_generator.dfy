/** The practice-problem panel of the web client
    (learning-platform/frontend/src/components/ProblemGenerator.js): a form
    (topic, difficulty, problem type), the problem last received, the
    learner's answer and the assessment shown for it.  Each request handler is
    a begin step, which validates the input and sets the busy flag, and a
    complete step, which applies whatever the backend answered. */
module ProblemGenerator {
  import opened Common
  import opened Text

  /** The problem body the client keeps.  `solution` is absent when the
      backend does not send one, as the generate endpoint never does. */
  datatype Problem = Problem(question: string, hints: seq<string>, solution: Option<string>)

  /** The `assessment` object of a grading answer. */
  datatype Graded = Graded(feedback: string, isCorrect: bool, score: int)

  /** The assessment the panel shows once an answer was graded. */
  datatype Shown = Shown(feedback: string, isCorrect: bool, score: int, submitted: bool)

  datatype GenerateRequest = GenerateRequest(topic: string, difficulty: int, problemType: string)

  /** The grading request: user 1, the topic, the question, the answer and the
      expected solution. */
  datatype AssessRequest = AssessRequest(userId: int, topic: string, question: string, answer: string, solution: Option<string>)

  /** The nine `useState` fields. */
  datatype Panel = Panel(
    topic: string,
    difficulty: int,
    problemType: string,
    problem: Option<Problem>,
    loading: bool,
    showHints: bool,
    userAnswer: string,
    assessment: Option<Shown>,
    submitting: bool)

  const Initial := Panel("", 5, "open_ended", None, false, false, "", None, false)

  /** The state a begin step leaves and the request it issues, if any. */
  datatype Started<R> = Started(next: Panel, request: Option<R>)

  /** The three form fields are the same in both states. */
  predicate SameForm(s: Panel, t: Panel) {
    s.topic == t.topic && s.difficulty == t.difficulty && s.problemType == t.problemType
  }

  // ---------------------------------------------------------------------------
  // Enable and lock conditions of the view

  /** The answer box accepts input only while no assessment is shown. */
  predicate AnswerEditable(s: Panel) { s.assessment.None? }

  /** The submit button is enabled when not submitting and the answer is not blank. */
  predicate SubmitEnabled(s: Panel) { !s.submitting && !Blank(s.userAnswer) }

  /** The generate button is disabled while a problem is being generated. */
  predicate GenerateEnabled(s: Panel) { !s.loading }

  /** The hint toggle is offered only for a problem with at least one hint. */
  predicate HintToggleOffered(s: Panel) { s.problem.Some? && |s.problem.value.hints| > 0 }

  // ---------------------------------------------------------------------------
  // Steps

  /** Typing into the answer box; a disabled box ignores input. */
  function AnswerTyped(s: Panel, text: string): (r: Panel)
    ensures AnswerEditable(s) ==> r.userAnswer == text
    ensures !AnswerEditable(s) ==> r == s
    ensures r.(userAnswer := s.userAnswer) == s
  {
    if AnswerEditable(s) then s.(userAnswer := text) else s
  }

  /** `generateProblem` up to the request.  A blank topic is rejected with no
      change and no request; otherwise the busy flag is raised and the
      previous assessment and answer are cleared before the request goes out,
      while the problem on screen stays until an answer arrives. */
  function GenerateStarted(s: Panel): (r: Started<GenerateRequest>)
    ensures r.request.None? <==> Blank(s.topic)
    ensures r.request.None? ==> r.next == s
    ensures r.request.Some? ==>
      && r.request.value == GenerateRequest(s.topic, s.difficulty, s.problemType)
      && r.next.loading && !GenerateEnabled(r.next) && r.next.assessment.None? && r.next.userAnswer == ""
      && AnswerEditable(r.next) && !SubmitEnabled(r.next)
      && r.next.problem == s.problem && r.next.showHints == s.showHints && r.next.submitting == s.submitting
      && SameForm(s, r.next)
  {
    if Blank(s.topic) then Started(s, None)
    else Started(s.(loading := true, assessment := None, userAnswer := ""),
                 Some(GenerateRequest(s.topic, s.difficulty, s.problemType)))
  }

  /** The rest of `generateProblem`: a received problem replaces the old one
      with its hints folded; a failure keeps the old problem and hint state.
      Either way the busy flag drops, and nothing else changes. */
  function GenerateSettled(s: Panel, reply: Reply<Problem>): (r: Panel)
    ensures !r.loading
    ensures reply.Resolved? ==> r.problem == Some(reply.value) && !r.showHints
    ensures reply.Rejected? ==> r.problem == s.problem && r.showHints == s.showHints
    ensures r.(problem := s.problem, showHints := s.showHints, loading := s.loading) == s
  {
    match reply
    case Resolved(p) => s.(problem := Some(p), showHints := false, loading := false)
    case Rejected => s.(loading := false)
  }

  /** `submitAnswer` up to the request.  A blank answer is rejected with no
      change and no request.  Without a problem the reading of its question
      throws inside the `try`, so the handler ends at once with the busy flag
      down and no request.  Otherwise the busy flag is raised and the request
      carries user 1, the topic and the problem's question and solution. */
  function SubmitStarted(s: Panel): (r: Started<AssessRequest>)
    ensures Blank(s.userAnswer) ==> r.next == s && r.request.None?
    ensures !Blank(s.userAnswer) && s.problem.None? ==> r.next == s.(submitting := false) && r.request.None?
    ensures !Blank(s.userAnswer) && s.problem.Some? ==>
      && r.request == Some(AssessRequest(1, s.topic, s.problem.value.question, s.userAnswer, s.problem.value.solution))
      && r.next == s.(submitting := true)
    ensures r.next.assessment == s.assessment && r.next.userAnswer == s.userAnswer && r.next.problem == s.problem
  {
    if Blank(s.userAnswer) then Started(s, None)
    else if s.problem.None? then Started(s.(submitting := false), None)
    else Started(s.(submitting := true),
                 Some(AssessRequest(1, s.topic, s.problem.value.question, s.userAnswer, s.problem.value.solution)))
  }

  /** The rest of `submitAnswer`: a grading answer becomes the shown
      assessment, which locks the answer box; a failure shows nothing and
      keeps the answer for another try.  The busy flag drops either way. */
  function SubmitSettled(s: Panel, reply: Reply<Graded>): (r: Panel)
    ensures !r.submitting
    ensures reply.Resolved? ==>
      && r.assessment == Some(Shown(reply.value.feedback, reply.value.isCorrect, reply.value.score, true))
      && !AnswerEditable(r)
    ensures reply.Rejected? ==> r.assessment == s.assessment
    ensures r.userAnswer == s.userAnswer && r.problem == s.problem && SameForm(s, r)
    ensures r.(assessment := s.assessment, submitting := s.submitting) == s
  {
    match reply
    case Resolved(g) => s.(assessment := Some(Shown(g.feedback, g.isCorrect, g.score, true)), submitting := false)
    case Rejected => s.(submitting := false)
  }

  /** `resetProblem`: back to an empty problem area; the form keeps its values
      and the busy flags are left alone. */
  function Reset(s: Panel): (r: Panel)
    ensures r.problem.None? && r.assessment.None? && r.userAnswer == "" && !r.showHints
    ensures SameForm(s, r) && r.loading == s.loading && r.submitting == s.submitting
    ensures AnswerEditable(r) && !HintToggleOffered(r)
  {
    s.(problem := None, userAnswer := "", assessment := None, showHints := false)
  }

  /** The hint toggle flips the hint list and nothing else. */
  function HintsToggled(s: Panel): (r: Panel)
    ensures r.showHints != s.showHints
    ensures r.(showHints := s.showHints) == s
  {
    s.(showHints := !s.showHints)
  }

  /** Toggling twice restores the state. */
  lemma ToggleTwice(s: Panel)
    ensures HintsToggled(HintsToggled(s)) == s
  {
  }

  /** The generate handler does not look at the busy flag that disables its
      button: called while a problem is being generated, it starts another
      request. */
  lemma GenerateStartsWhileLoading(s: Panel)
    requires s.loading && !Blank(s.topic)
    ensures !GenerateEnabled(s)
    ensures GenerateStarted(s).request.Some? && GenerateStarted(s).next.loading
  {
  }

  /** Resetting twice is resetting once. */
  lemma ResetIdempotent(s: Panel)
    ensures Reset(Reset(s)) == Reset(s)
  {
  }

  // ---------------------------------------------------------------------------
  // Sessions

  /** What happens to the panel, one user action or backend answer at a time.
      Edits of the three form fields are `EditForm`. */
  datatype Event =
    | EditForm(topic: string, difficulty: int, problemType: string)
    | TypeAnswer(text: string)
    | Generate
    | Generated(problemReply: Reply<Problem>)
    | Submit
    | Submitted(gradeReply: Reply<Graded>)
    | ResetProblem
    | ToggleHints

  function Step(s: Panel, e: Event): Panel {
    match e
    case EditForm(t, d, k) => s.(topic := t, difficulty := d, problemType := k)
    case TypeAnswer(text) => AnswerTyped(s, text)
    case Generate => GenerateStarted(s).next
    case Generated(reply) => GenerateSettled(s, reply)
    case Submit => SubmitStarted(s).next
    case Submitted(reply) => SubmitSettled(s, reply)
    case ResetProblem => Reset(s)
    case ToggleHints => HintsToggled(s)
  }

  function Run(s: Panel, events: seq<Event>): Panel
    decreases |events|
  {
    if events == [] then s else Run(Step(s, events[0]), events[1..])
  }

  /** Only a form edit changes the topic, difficulty or problem type: no
      handler, answer, reset or toggle touches them. */
  lemma {:induction false} FormOnlyChangesByEdits(s: Panel, events: seq<Event>)
    requires forall k :: 0 <= k < |events| ==> !events[k].EditForm?
    ensures SameForm(s, Run(s, events))
    decreases |events|
  {
    if events != [] {
      var t := Step(s, events[0]);
      assert SameForm(s, t);
      assert forall k :: 0 <= k < |events[1..]| ==> events[1..][k] == events[k + 1];
      FormOnlyChangesByEdits(t, events[1..]);
    }
  }

  /** A shown assessment stays (and the answer stays locked) until a reset or
      a new generate clears it, whatever else happens. */
  lemma {:induction false} AssessmentStaysUntilCleared(s: Panel, events: seq<Event>)
    requires forall k :: 0 <= k < |events| ==> events[k] != Generate && events[k] != ResetProblem
    requires forall k :: 0 <= k < |events| ==> !events[k].Submitted? || events[k].gradeReply.Rejected?
    ensures Run(s, events).assessment == s.assessment
    ensures Run(s, events).userAnswer == s.userAnswer || AnswerEditable(s)
    decreases |events|
  {
    if events != [] {
      var t := Step(s, events[0]);
      assert t.assessment == s.assessment;
      assert t.userAnswer == s.userAnswer || AnswerEditable(s);
      assert forall k :: 0 <= k < |events[1..]| ==> events[1..][k] == events[k + 1];
      AssessmentStaysUntilCleared(t, events[1..]);
    }
  }

  // ---------------------------------------------------------------------------
  // The component

  class Generator {
    var topic: string
    var difficulty: int
    var problemType: string
    var problem: Option<Problem>
    var loading: bool
    var showHints: bool
    var userAnswer: string
    var assessment: Option<Shown>
    var submitting: bool

    function State(): Panel
      reads this
    {
      Panel(topic, difficulty, problemType, problem, loading, showHints, userAnswer, assessment, submitting)
    }

    constructor ()
      ensures State() == Initial
    {
      topic, difficulty, problemType := "", 5, "open_ended";
      problem, loading, showHints := None, false, false;
      userAnswer, assessment, submitting := "", None, false;
    }

    method EditForm(t: string, d: int, k: string)
      modifies this
      ensures State() == Step(old(State()), Event.EditForm(t, d, k))
    {
      topic, difficulty, problemType := t, d, k;
    }

    method TypeAnswer(text: string)
      modifies this
      ensures State() == AnswerTyped(old(State()), text)
    {
      if assessment.None? {
        userAnswer := text;
      }
    }

    method BeginGenerate() returns (request: Option<GenerateRequest>)
      modifies this
      ensures State() == GenerateStarted(old(State())).next
      ensures request == GenerateStarted(old(State())).request
    {
      ghost var before := State();
      if Blank(topic) {
        return None;
      }
      loading := true;
      assessment := None;
      userAnswer := "";
      request := Some(GenerateRequest(topic, difficulty, problemType));
      assert State() == before.(loading := true, assessment := None, userAnswer := "");
    }

    method CompleteGenerate(reply: Reply<Problem>)
      modifies this
      ensures State() == GenerateSettled(old(State()), reply)
    {
      if reply.Resolved? {
        problem := Some(reply.value);
        showHints := false;
      }
      loading := false;
    }

    method BeginSubmit() returns (request: Option<AssessRequest>)
      modifies this
      ensures State() == SubmitStarted(old(State())).next
      ensures request == SubmitStarted(old(State())).request
    {
      if Blank(userAnswer) {
        return None;
      }
      submitting := true;
      if problem.None? {
        submitting := false;
        return None;
      }
      request := Some(AssessRequest(1, topic, problem.value.question, userAnswer, problem.value.solution));
    }

    method CompleteSubmit(reply: Reply<Graded>)
      modifies this
      ensures State() == SubmitSettled(old(State()), reply)
    {
      if reply.Resolved? {
        assessment := Some(Shown(reply.value.feedback, reply.value.isCorrect, reply.value.score, true));
      }
      submitting := false;
    }

    method ResetProblem()
      modifies this
      ensures State() == Reset(old(State()))
    {
      problem := None;
      userAnswer := "";
      assessment := None;
      showHints := false;
    }

    method ToggleHints()
      modifies this
      ensures State() == HintsToggled(old(State()))
    {
      showHints := !showHints;
    }
  }
}
