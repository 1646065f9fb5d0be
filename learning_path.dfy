/** The learning-path page of the web client
    (learning-platform/frontend/src/components/LearningPath.js): a form
    (subject, level, goals), the last path received and a busy flag. */
module LearningPath {
  import opened Common
  import opened Text

  /** The body of a learning-path answer. */
  datatype Path = Path(subject: string, level: string, topics: seq<string>, totalTopics: int)

  datatype PathRequest = PathRequest(subject: string, currentLevel: string, goals: string)

  /** The five `useState` fields. */
  datatype Page = Page(subject: string, currentLevel: string, goals: string, path: Option<Path>, loading: bool)

  const Initial := Page("", "beginner", "", None, false)

  datatype Started = Started(next: Page, request: Option<PathRequest>)

  /** `generatePath` up to the request: a blank subject is rejected with no
      change and no request; otherwise the flag is raised and the form goes
      out as it is.  The previous path stays on screen meanwhile.  The handler
      itself does not look at the busy flag. */
  function PathStarted(s: Page): (r: Started)
    ensures r.request.None? <==> Blank(s.subject)
    ensures r.request.None? ==> r.next == s
    ensures r.request.Some? ==>
      && r.request.value == PathRequest(s.subject, s.currentLevel, s.goals)
      && r.next == s.(loading := true) && !GenerateEnabled(r.next)
  {
    if Blank(s.subject) then Started(s, None)
    else Started(s.(loading := true), Some(PathRequest(s.subject, s.currentLevel, s.goals)))
  }

  /** The generate button is disabled while a path is being generated. */
  predicate GenerateEnabled(s: Page) { !s.loading }

  /** The handler itself has no such guard: called while a path is being
      generated, it starts another request. */
  lemma PathStartsWhileLoading(s: Page)
    requires s.loading && !Blank(s.subject)
    ensures !GenerateEnabled(s)
    ensures PathStarted(s).request.Some? && PathStarted(s).next == s
  {
  }

  /** The rest of `generatePath`: an answer replaces the path wholesale, a
      failure keeps the previous one; the flag drops and the form is kept. */
  function PathSettled(s: Page, reply: Reply<Path>): (r: Page)
    ensures r.path == (if reply.Resolved? then Some(reply.value) else s.path)
    ensures !r.loading
    ensures r.subject == s.subject && r.currentLevel == s.currentLevel && r.goals == s.goals
  {
    match reply
    case Resolved(p) => s.(path := Some(p), loading := false)
    case Rejected => s.(loading := false)
  }

  /** What the page shows below the form. */
  datatype Card = PathCard | LoadingCard | NoCard

  /** The path card needs a path with at least one topic; failing that, the
      loading card shows while a request is pending. */
  function CardShown(s: Page): (c: Card)
    ensures c == PathCard <==> s.path.Some? && |s.path.value.topics| > 0
    ensures c == LoadingCard <==> !(s.path.Some? && |s.path.value.topics| > 0) && s.loading
  {
    if s.path.Some? && |s.path.value.topics| > 0 then PathCard
    else if s.loading then LoadingCard
    else NoCard
  }

  /** A path on screen stays on screen through a new request and through its
      failure. */
  lemma PathCardSurvivesFailure(s: Page)
    requires CardShown(s) == PathCard
    ensures CardShown(PathStarted(s).next) == PathCard
    ensures CardShown(PathSettled(PathStarted(s).next, Rejected)) == PathCard
    ensures PathSettled(PathStarted(s).next, Rejected).path == s.path
  {
  }

  /** `Math.ceil(x)`. */
  function Ceil(x: real): (n: int)
    ensures n as real - 1.0 < x <= n as real
  {
    var f := x.Floor;
    if f as real == x then f else f + 1
  }

  /** The estimate shown: two weeks per topic, rounded up. */
  function EstimatedWeeks(totalTopics: int): int {
    Ceil(totalTopics as real * 2.0)
  }

  /** For a whole number of topics the rounding does nothing. */
  lemma EstimatedWeeksTwicePerTopic(totalTopics: int)
    ensures EstimatedWeeks(totalTopics) == 2 * totalTopics
  {
    var n := EstimatedWeeks(totalTopics);
    assert (2 * totalTopics) as real == totalTopics as real * 2.0;
    assert n as real - 1.0 < (2 * totalTopics) as real <= n as real;
  }

  /** The topic list shown, numbered from 1 in the order received. */
  function NumberedTopics(topics: seq<string>): (r: seq<(int, string)>)
    ensures |r| == |topics|
    ensures forall k :: 0 <= k < |r| ==> r[k].0 == k + 1 && r[k].1 == topics[k]
  {
    if topics == [] then []
    else NumberedTopics(topics[..|topics| - 1]) + [(|topics|, topics[|topics| - 1])]
  }

  // ---------------------------------------------------------------------------
  // The component

  class Component {
    var subject: string
    var currentLevel: string
    var goals: string
    var path: Option<Path>
    var loading: bool

    function State(): Page
      reads this
    {
      Page(subject, currentLevel, goals, path, loading)
    }

    constructor ()
      ensures State() == Initial
    {
      subject, currentLevel, goals, path, loading := "", "beginner", "", None, false;
    }

    method EditForm(newSubject: string, level: string, newGoals: string)
      modifies this
      ensures State() == old(State()).(subject := newSubject, currentLevel := level, goals := newGoals)
    {
      subject, currentLevel, goals := newSubject, level, newGoals;
    }

    method BeginPath() returns (request: Option<PathRequest>)
      modifies this
      ensures State() == PathStarted(old(State())).next
      ensures request == PathStarted(old(State())).request
    {
      if Blank(subject) {
        return None;
      }
      loading := true;
      request := Some(PathRequest(subject, currentLevel, goals));
    }

    method CompletePath(reply: Reply<Path>)
      modifies this
      ensures State() == PathSettled(old(State()), reply)
    {
      if reply.Resolved? {
        path := Some(reply.value);
      }
      loading := false;
    }
  }
}
