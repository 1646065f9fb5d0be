/** The progress dashboard of the web client
    (learning-platform/frontend/src/components/Dashboard.js): the progress
    report last fetched for the user and a loading flag, and the totals the
    page derives from the report.  The report has the shape the progress
    endpoint answers with. */
module Dashboard {
  import opened Common
  import opened Text
  import Backend

  /** The two `useState` fields. */
  datatype Board = Board(progress: Option<Backend.ProgressReport>, loading: bool)

  const Initial := Board(None, true)

  /** The fetch the page issues whenever the user changes. */
  datatype ProgressRequest = ProgressRequest(userId: int)

  /** The end of `loadProgress`: a report replaces the shown one, a failure
      keeps whatever was shown (nothing, before the first answer); the loading
      flag drops either way. */
  function LoadSettled(s: Board, reply: Reply<Backend.ProgressReport>): (r: Board)
    ensures r.progress == (if reply.Resolved? then Some(reply.value) else s.progress)
    ensures !r.loading
  {
    match reply
    case Resolved(report) => Board(Some(report), false)
    case Rejected => s.(loading := false)
  }

  function SumAttempted(items: seq<Backend.ProgressItem>): int {
    if items == [] then 0 else SumAttempted(items[..|items| - 1]) + items[|items| - 1].problemsAttempted
  }

  function SumCorrect(items: seq<Backend.ProgressItem>): int {
    if items == [] then 0 else SumCorrect(items[..|items| - 1]) + items[|items| - 1].problemsCorrect
  }

  /** The items of the shown report, none when nothing was fetched. */
  function Items(s: Board): seq<Backend.ProgressItem> {
    if s.progress.Some? then s.progress.value.progress else []
  }

  function TotalProblems(s: Board): int { SumAttempted(Items(s)) }

  function TotalCorrect(s: Board): int { SumCorrect(Items(s)) }

  /** The overall accuracy in percent, 0 before anything was attempted (the
      page rounds it to one decimal for display). */
  function OverallAccuracy(s: Board): real {
    var total := TotalProblems(s);
    if total > 0 then TotalCorrect(s) as real / total as real * 100.0 else 0.0
  }

  /** `progress?.topics_in_progress || 0`. */
  function TopicCount(s: Board): int {
    if s.progress.Some? then s.progress.value.topicsInProgress else 0
  }

  /** The text of a `topic_id`, as a template string renders it. */
  function IdText(id: Option<int>): string {
    if id.Some? then IntToString(id.value) else "null"
  }

  /** `item.topic_name || \`Topic ${item.topic_id}\``. */
  function ItemLabel(item: Backend.ProgressItem): (shown: string)
    ensures item.topicName != "" ==> shown == item.topicName
    ensures item.topicName == "" ==> shown == "Topic " + IdText(item.topicId)
  {
    if item.topicName != "" then item.topicName else "Topic " + IdText(item.topicId)
  }

  /** Every counter pair is sane. */
  predicate SaneItems(items: seq<Backend.ProgressItem>) {
    forall k :: 0 <= k < |items| ==> 0 <= items[k].problemsCorrect <= items[k].problemsAttempted
  }

  /** Summed counters keep the per-record order. */
  lemma {:induction false} SumsOrdered(items: seq<Backend.ProgressItem>)
    requires SaneItems(items)
    ensures 0 <= SumCorrect(items) <= SumAttempted(items)
  {
    if items != [] {
      var init := items[..|items| - 1];
      assert forall k :: 0 <= k < |init| ==> init[k] == items[k];
      SumsOrdered(init);
    }
  }

  /** With sane records the overall accuracy lies in [0, 100]; with nothing
      fetched or nothing attempted it is 0. */
  lemma OverallAccuracyBounds(s: Board)
    requires SaneItems(Items(s))
    ensures 0.0 <= OverallAccuracy(s) <= 100.0
    ensures TotalProblems(s) == 0 ==> OverallAccuracy(s) == 0.0
  {
    SumsOrdered(Items(s));
    var c, t := TotalCorrect(s), TotalProblems(s);
    if t > 0 {
      Backend.RatioBounds(c, t);
    }
  }

  /** Before the first answer, and after a failed first fetch, the page shows
      zero totals and the empty state. */
  lemma FailedFirstFetchShowsNothing()
    ensures var s := LoadSettled(Initial, Rejected);
      && s.progress.None? && !s.loading
      && TotalProblems(s) == 0 && TotalCorrect(s) == 0 && OverallAccuracy(s) == 0.0
      && TopicCount(s) == 0 && Items(s) == []
  {
  }

  /** A report built by the progress endpoint from consistent records has sane
      counters, and every item's label is the endpoint's own label: the
      endpoint never sends an empty topic name. */
  lemma BackendReportShown(records: seq<Backend.Progress>, userId: int)
    requires Backend.AllConsistent(records)
    ensures var items := Backend.UserProgress(records, userId).progress;
      && SaneItems(items)
      && forall k :: 0 <= k < |items| ==> ItemLabel(items[k]) == Backend.TopicLabel(Backend.RecordsOf(records, userId)[k])
  {
    var items := Backend.UserProgress(records, userId).progress;
    var mine := Backend.RecordsOf(records, userId);
    Backend.UserProgressShape(records, userId);
    forall k | 0 <= k < |items|
      ensures 0 <= items[k].problemsCorrect <= items[k].problemsAttempted
      ensures ItemLabel(items[k]) == Backend.TopicLabel(mine[k])
    {
      assert mine[k] in records;
      Backend.TopicLabelCases(mine[k]);
    }
  }

  // ---------------------------------------------------------------------------
  // Sessions

  /** A fetch for a user starts (on mount and on every change of user) or
      one settles. */
  datatype Event = Load(userId: int) | Loaded(reply: Reply<Backend.ProgressReport>)

  /** Starting a fetch changes no state: the loading flag is not raised
      again. */
  function Step(s: Board, e: Event): Board {
    match e
    case Load(_) => s
    case Loaded(reply) => LoadSettled(s, reply)
  }

  function Run(s: Board, events: seq<Event>): Board
    decreases |events|
  {
    if events == [] then s else Run(Step(s, events[0]), events[1..])
  }

  /** Once the first fetch has settled the loading view never returns, and the
      flag stays up until some fetch settles. */
  lemma {:induction false} LoadingOnlyUntilFirstAnswer(s: Board, events: seq<Event>)
    ensures !s.loading ==> !Run(s, events).loading
    ensures (exists k :: 0 <= k < |events| && events[k].Loaded?) ==> !Run(s, events).loading
    ensures s.loading && (forall k :: 0 <= k < |events| ==> events[k].Load?) ==> Run(s, events) == s
    decreases |events|
  {
    if events != [] {
      var t := Step(s, events[0]);
      assert forall k :: 0 <= k < |events[1..]| ==> events[1..][k] == events[k + 1];
      LoadingOnlyUntilFirstAnswer(t, events[1..]);
      if events[0].Loaded? {
        assert !t.loading;
      }
    }
  }

  // ---------------------------------------------------------------------------
  // The component

  class Component {
    var progress: Option<Backend.ProgressReport>
    var loading: bool

    function State(): Board
      reads this
    {
      Board(progress, loading)
    }

    constructor ()
      ensures State() == Initial
    {
      progress, loading := None, true;
    }

    /** `loadProgress` up to the request; it touches no state. */
    method BeginLoad(userId: int) returns (request: ProgressRequest)
      ensures request.userId == userId
    {
      request := ProgressRequest(userId);
    }

    method CompleteLoad(reply: Reply<Backend.ProgressReport>)
      modifies this
      ensures State() == LoadSettled(old(State()), reply)
    {
      if reply.Resolved? {
        progress := Some(reply.value);
      }
      loading := false;
    }
  }
}
