/** The request handlers of the API service (learning-platform/backend/main.py)
    over an in-memory picture of the three tables they touch.  The language
    model is an oracle: each handler receives the text it replied with. */
module Backend {
  import opened Common
  import opened Text
  import opened AiTutor

  // ---------------------------------------------------------------------------
  // Records

  /** A row of the `progress` table (its `id` and `last_practiced` columns are
      not modelled).  `topicId` is null for progress tracked by topic name. */
  datatype Progress = Progress(
    userId: int,
    topicId: Option<int>,
    topicName: Option<string>,
    masteryLevel: real,
    problemsAttempted: int,
    problemsCorrect: int)

  /** The columns of a `problems` row the handlers read. */
  datatype StoredProblem = StoredProblem(topicId: Option<int>, question: string, solution: string)

  /** A row of the `conversations` table; rows are kept in insertion order,
      which is also their timestamp order. */
  datatype Conversation = Conversation(userId: int, message: string, response: string, topicId: Option<int>)

  /** The counters agree with each other: no more correct answers than
      attempts, mastery in [0, 1], and mastery the ratio once something was
      attempted. */
  predicate Consistent(p: Progress) {
    && 0 <= p.problemsCorrect <= p.problemsAttempted
    && 0.0 <= p.masteryLevel <= 1.0
    && (p.problemsAttempted > 0 ==> p.masteryLevel == p.problemsCorrect as real / p.problemsAttempted as real)
  }

  // ---------------------------------------------------------------------------
  // Progress counters

  /** The in-place update of an existing record after one assessed answer. */
  function Recorded(p: Progress, isCorrect: bool): (q: Progress)
    requires p.problemsAttempted >= 0
  {
    var attempted := p.problemsAttempted + 1;
    var correct := if isCorrect then p.problemsCorrect + 1 else p.problemsCorrect;
    p.(problemsAttempted := attempted, problemsCorrect := correct,
       masteryLevel := correct as real / attempted as real)
  }

  /** One answer counts as one attempt, and as one correct answer exactly when
      it was judged correct; mastery becomes the new ratio and the record's
      identity does not change. */
  lemma RecordedCounts(p: Progress, isCorrect: bool)
    requires p.problemsAttempted >= 0
    ensures var q := Recorded(p, isCorrect);
      && q.problemsAttempted == p.problemsAttempted + 1
      && (q.problemsCorrect == p.problemsCorrect + 1 <==> isCorrect)
      && (!isCorrect ==> q.problemsCorrect == p.problemsCorrect)
      && q.masteryLevel * q.problemsAttempted as real == q.problemsCorrect as real
      && q.userId == p.userId && q.topicId == p.topicId && q.topicName == p.topicName
  {
  }

  /** The update keeps `correct <= attempted` and mastery in [0, 1]. */
  lemma RecordedConsistent(p: Progress, isCorrect: bool)
    requires p.problemsAttempted >= 0 && 0 <= p.problemsCorrect <= p.problemsAttempted
    ensures Consistent(Recorded(p, isCorrect))
  {
    var q := Recorded(p, isCorrect);
    assert 0 <= q.problemsCorrect <= q.problemsAttempted;
    RatioBounds(q.problemsCorrect, q.problemsAttempted);
  }

  lemma RatioBounds(c: int, a: int)
    requires 0 <= c <= a && a > 0
    ensures 0.0 <= c as real / a as real <= 1.0
  {
    assert c as real / a as real * a as real == c as real;
  }

  /** How a handler looks a record up. */
  datatype Key = ByTopicId(topicId: Option<int>) | ByTopicName(topicName: string)

  /** The `where` clause: the user and the key column.  Comparing a column with
      a null value selects the rows where the column is null. */
  predicate Matches(p: Progress, userId: int, key: Key) {
    && p.userId == userId
    && match key
       case ByTopicId(t) => p.topicId == t
       case ByTopicName(n) => p.topicName == Some(n)
  }

  /** The positions of the matching rows, in table order. */
  function MatchingIndices(records: seq<Progress>, userId: int, key: Key): (r: seq<nat>)
    ensures forall k :: 0 <= k < |r| ==> r[k] < |records| && Matches(records[r[k]], userId, key)
    ensures forall i :: 0 <= i < |records| && Matches(records[i], userId, key) ==> i in r
    ensures forall k, m :: 0 <= k < m < |r| ==> r[k] < r[m]
  {
    if records == [] then []
    else
      var init := records[..|records| - 1];
      var earlier := MatchingIndices(init, userId, key);
      assert forall i :: 0 <= i < |init| ==> init[i] == records[i];
      if Matches(records[|records| - 1], userId, key) then earlier + [|records| - 1] else earlier
  }

  /** `result.scalar_one_or_none()`: no row, the only row, or an error when
      several rows match. */
  function OneOrNone(records: seq<Progress>, userId: int, key: Key): (r: Result<Option<nat>>)
    ensures r == Ok(None) <==> forall i :: 0 <= i < |records| ==> !Matches(records[i], userId, key)
    ensures r.Err? <==>
      exists i, j :: 0 <= i < j < |records| && Matches(records[i], userId, key) && Matches(records[j], userId, key)
    ensures r.Err? ==> r.fault == MultipleResultsFound
    ensures r.Ok? && r.value.Some? ==> r.value.value < |records| && Matches(records[r.value.value], userId, key)
    ensures r.Ok? && r.value.Some? ==>
      forall j :: 0 <= j < |records| && Matches(records[j], userId, key) ==> j == r.value.value
  {
    var m := MatchingIndices(records, userId, key);
    assert |m| >= 2 ==> m[0] < m[1];
    assert forall i, j :: 0 <= i < j < |records| && Matches(records[i], userId, key) && Matches(records[j], userId, key) ==> |m| >= 2 by {
      forall i, j | 0 <= i < j < |records| && Matches(records[i], userId, key) && Matches(records[j], userId, key)
        ensures |m| >= 2
      {
        assert i in m && j in m;
      }
    }
    if |m| == 0 then Ok(None)
    else if |m| == 1 then Ok(Some(m[0]))
    else Err(MultipleResultsFound)
  }

  /** The record a first attempt creates: `topic_id` from the problem, or a
      null `topic_id` and the topic name. */
  function FirstAttempt(userId: int, key: Key, isCorrect: bool): Progress {
    match key
    case ByTopicId(t) =>
      Progress(userId, t, None, if isCorrect then 1.0 else 0.0, 1, if isCorrect then 1 else 0)
    case ByTopicName(n) =>
      Progress(userId, None, Some(n), if isCorrect then 1.0 else 0.0, 1, if isCorrect then 1 else 0)
  }

  /** The record with the column defaults (no attempts yet) for the same key. */
  function Untouched(userId: int, key: Key): Progress {
    match key
    case ByTopicId(t) => Progress(userId, t, None, 0.0, 0, 0)
    case ByTopicName(n) => Progress(userId, None, Some(n), 0.0, 0, 0)
  }

  /** A first attempt is the update rule applied to an untouched record. */
  lemma FirstAttemptIsFirstUpdate(userId: int, key: Key, isCorrect: bool)
    ensures FirstAttempt(userId, key, isCorrect) == Recorded(Untouched(userId, key), isCorrect)
    ensures Matches(FirstAttempt(userId, key, isCorrect), userId, key)
  {
  }

  predicate AllConsistent(records: seq<Progress>) {
    forall k :: 0 <= k < |records| ==> Consistent(records[k])
  }

  /** The progress part of one assessed answer: update the only matching
      record, or add one when none matches; several matches raise before
      anything is written. */
  function Upsert(records: seq<Progress>, userId: int, key: Key, isCorrect: bool): Result<seq<Progress>>
    requires AllConsistent(records)
  {
    match OneOrNone(records, userId, key)
    case Err(e) => Err(e)
    case Ok(Some(i)) => Ok(records[i := Recorded(records[i], isCorrect)])
    case Ok(None) => Ok(records + [FirstAttempt(userId, key, isCorrect)])
  }

  /** What an upsert leaves behind: every record is still consistent, exactly
      one record matches the key, the records that do not match are
      unchanged, at most one record was added, and every record is either
      unchanged or the key's record. */
  predicate UpsertedFrom(records: seq<Progress>, after: seq<Progress>, userId: int, key: Key) {
    && AllConsistent(after)
    && |MatchingIndices(after, userId, key)| == 1
    && |records| <= |after| <= |records| + 1
    && (forall k :: 0 <= k < |records| && !Matches(records[k], userId, key) ==> after[k] == records[k])
    && forall k :: 0 <= k < |after| ==> (k < |records| && after[k] == records[k]) || Matches(after[k], userId, key)
  }

  /** The upsert fails exactly when several records match; otherwise it
      keeps every record consistent, touches only the matching record (or
      adds one at the end), and leaves exactly one record for the key. */
  lemma UpsertEffect(records: seq<Progress>, userId: int, key: Key, isCorrect: bool)
    requires AllConsistent(records)
    ensures var m := MatchingIndices(records, userId, key);
      Upsert(records, userId, key, isCorrect).Err? <==> |m| > 1
    ensures var r := Upsert(records, userId, key, isCorrect);
      r.Ok? ==> UpsertedFrom(records, r.value, userId, key)
  {
    var m := MatchingIndices(records, userId, key);
    if |m| == 1 {
      UpdateEffect(records, userId, key, isCorrect, m[0]);
    } else if |m| == 0 {
      InsertEffect(records, userId, key, isCorrect);
    }
  }

  lemma UpdateEffect(records: seq<Progress>, userId: int, key: Key, isCorrect: bool, i: nat)
    requires AllConsistent(records)
    requires MatchingIndices(records, userId, key) == [i]
    ensures i < |records|
    ensures UpsertedFrom(records, records[i := Recorded(records[i], isCorrect)], userId, key)
  {
    assert i < |records| && Matches(records[i], userId, key) by {
      assert MatchingIndices(records, userId, key)[0] == i;
    }
    RecordedCounts(records[i], isCorrect);
    RecordedConsistent(records[i], isCorrect);
    ReplacedRow(records, userId, key, i, Recorded(records[i], isCorrect));
  }

  /** Replacing the only matching record by another record of the same key. */
  lemma ReplacedRow(records: seq<Progress>, userId: int, key: Key, i: nat, q: Progress)
    requires i < |records| && AllConsistent(records) && Consistent(q) && Matches(q, userId, key)
    requires MatchingIndices(records, userId, key) == [i]
    ensures UpsertedFrom(records, records[i := q], userId, key)
  {
    assert Matches(records[i], userId, key) by {
      assert MatchingIndices(records, userId, key)[0] == i;
    }
    assert forall k :: 0 <= k < |records| && k != i ==> !Matches(records[k], userId, key);
    SingleMatch(records[i := q], userId, key, i);
    OthersKept(records, userId, key, i, q);
  }

  /** Replacing the record at `i`, the only one matching, keeps all others. */
  lemma OthersKept(records: seq<Progress>, userId: int, key: Key, i: nat, q: Progress)
    requires i < |records| && AllConsistent(records) && Consistent(q) && Matches(q, userId, key)
    requires Matches(records[i], userId, key)
    requires forall k :: 0 <= k < |records| && k != i ==> !Matches(records[k], userId, key)
    ensures var updated := records[i := q];
      && AllConsistent(updated)
      && (forall k :: 0 <= k < |records| && !Matches(records[k], userId, key) ==> updated[k] == records[k])
      && forall k :: 0 <= k < |updated| ==> (k < |records| && updated[k] == records[k]) || Matches(updated[k], userId, key)
  {
  }

  lemma InsertEffect(records: seq<Progress>, userId: int, key: Key, isCorrect: bool)
    requires AllConsistent(records)
    requires MatchingIndices(records, userId, key) == []
    ensures UpsertedFrom(records, records + [FirstAttempt(userId, key, isCorrect)], userId, key)
  {
    var m := MatchingIndices(records, userId, key);
    var added := records + [FirstAttempt(userId, key, isCorrect)];
    FirstAttemptIsFirstUpdate(userId, key, isCorrect);
    RecordedConsistent(Untouched(userId, key), isCorrect);
    assert forall k :: 0 <= k < |records| ==> added[k] == records[k];
    SingleMatch(added, userId, key, |records|);
  }

  /** A table in which no row matches has no matches. */
  lemma {:induction false} NoMatch(records: seq<Progress>, userId: int, key: Key)
    requires forall k :: 0 <= k < |records| ==> !Matches(records[k], userId, key)
    ensures MatchingIndices(records, userId, key) == []
  {
    if records != [] {
      var init := records[..|records| - 1];
      assert forall k :: 0 <= k < |init| ==> init[k] == records[k];
      NoMatch(init, userId, key);
    }
  }

  /** A table in which only row `i` matches has one match. */
  lemma {:induction false} SingleMatch(records: seq<Progress>, userId: int, key: Key, i: nat)
    requires i < |records| && Matches(records[i], userId, key)
    requires forall k :: 0 <= k < |records| && k != i ==> !Matches(records[k], userId, key)
    ensures MatchingIndices(records, userId, key) == [i]
  {
    var init := records[..|records| - 1];
    assert forall k :: 0 <= k < |init| ==> init[k] == records[k];
    if i == |records| - 1 {
      NoMatch(init, userId, key);
    } else {
      SingleMatch(init, userId, key, i);
    }
  }

  /** Records kept by topic name all have a null `topic_id`, so a problem whose
      topic is null matches every one of them: two such records make the
      lookup in `submit_answer` fail. */
  lemma NullTopicMatchesNamedRecords(userId: int, isCorrect: bool)
    ensures var records := [
        FirstAttempt(userId, ByTopicName("algebra"), true),
        FirstAttempt(userId, ByTopicName("geometry"), false)];
      Upsert(records, userId, ByTopicId(None), isCorrect) == Err(MultipleResultsFound)
  {
    var records := [
        FirstAttempt(userId, ByTopicName("algebra"), true),
        FirstAttempt(userId, ByTopicName("geometry"), false)];
    assert 0 in MatchingIndices(records, userId, ByTopicId(None));
    assert 1 in MatchingIndices(records, userId, ByTopicId(None));
  }

  // ---------------------------------------------------------------------------
  // Progress report

  /** One entry of the `progress` list of `get_user_progress`. */
  datatype ProgressItem = ProgressItem(
    topicId: Option<int>,
    topicName: string,
    masteryLevel: real,
    problemsAttempted: int,
    problemsCorrect: int,
    accuracy: real)

  datatype ProgressReport = ProgressReport(userId: int, topicsInProgress: int, progress: seq<ProgressItem>)

  /** `p.topic_name or (f"Topic {p.topic_id}" if p.topic_id else "Unknown")`:
      an empty name and a zero id are falsy. */
  function TopicLabel(p: Progress): string {
    if p.topicName.Some? && p.topicName.value != "" then p.topicName.value
    else if p.topicId.Some? && p.topicId.value != 0 then "Topic " + IntToString(p.topicId.value)
    else "Unknown"
  }

  function Accuracy(p: Progress): real {
    if p.problemsAttempted > 0 then p.problemsCorrect as real / p.problemsAttempted as real * 100.0 else 0.0
  }

  function ItemOf(p: Progress): ProgressItem {
    ProgressItem(p.topicId, TopicLabel(p), p.masteryLevel, p.problemsAttempted, p.problemsCorrect, Accuracy(p))
  }

  /** The filter of the progress query: the row belongs to the user. */
  function OfUser(userId: int): Progress -> bool {
    (p: Progress) => p.userId == userId
  }

  /** The user's records in table order: the records at exactly the
      positions of the user's rows, in increasing order. */
  function RecordsOf(records: seq<Progress>, userId: int): (r: seq<Progress>)
    ensures var ix := Positions(records, OfUser(userId));
      |r| == |ix| && forall k :: 0 <= k < |r| ==> r[k] == records[ix[k]]
    ensures |r| <= |records|
  {
    if records == [] then []
    else
      var earlier := RecordsOf(records[..|records| - 1], userId);
      var last := records[|records| - 1];
      PositionsSnoc(records, OfUser(userId), earlier);
      if last.userId == userId then earlier + [last] else earlier
  }

  /** The selection holds exactly the user's records: each selected record
      is a record of the user, and every record of the user is selected. */
  lemma RecordsOfMembers(records: seq<Progress>, userId: int)
    ensures var r := RecordsOf(records, userId);
      && (forall k :: 0 <= k < |r| ==> r[k] in records && r[k].userId == userId)
      && (forall p :: p in records && p.userId == userId ==> p in r)
  {
    var r := RecordsOf(records, userId);
    var ix := Positions(records, OfUser(userId));
    forall p | p in records && p.userId == userId
      ensures p in r
    {
      var i :| 0 <= i < |records| && records[i] == p;
      assert OfUser(userId)(records[i]);
      var k :| 0 <= k < |ix| && ix[k] == i;
      assert r[k] == p;
    }
  }

  /** `get_user_progress`. */
  function UserProgress(records: seq<Progress>, userId: int): ProgressReport {
    var mine := RecordsOf(records, userId);
    ProgressReport(userId, |mine|, seq(|mine|, k requires 0 <= k < |mine| => ItemOf(mine[k])))
  }

  /** The report counts one topic per row of the user and lists those rows in
      table order, each with its counters and its label. */
  lemma UserProgressShape(records: seq<Progress>, userId: int)
    ensures var report := UserProgress(records, userId);
      var ix := Positions(records, OfUser(userId));
      && report.topicsInProgress == |report.progress| == |ix|
      && (forall k :: 0 <= k < |ix| ==> report.progress[k] == ItemOf(records[ix[k]]))
      && report.topicsInProgress == |RecordsOf(records, userId)|
      && report.topicsInProgress <= |records|
      && forall k :: 0 <= k < |report.progress| ==>
           var p := RecordsOf(records, userId)[k];
           && p in records && p.userId == userId
           && report.progress[k].problemsAttempted == p.problemsAttempted
           && report.progress[k].problemsCorrect == p.problemsCorrect
           && report.progress[k].masteryLevel == p.masteryLevel
           && report.progress[k].topicName == TopicLabel(p)
  {
  }

  /** Accuracy is in [0, 100]; for a consistent record it is 100 times the
      mastery level, and 0 before the first attempt. */
  lemma AccuracyBounds(p: Progress)
    requires Consistent(p)
    ensures 0.0 <= Accuracy(p) <= 100.0
    ensures p.problemsAttempted > 0 ==> Accuracy(p) == p.masteryLevel * 100.0
    ensures p.problemsAttempted == 0 ==> Accuracy(p) == 0.0
  {
    if p.problemsAttempted > 0 {
      RatioBounds(p.problemsCorrect, p.problemsAttempted);
    }
  }

  /** The label is the stored name when there is one, the topic number when
      there is a non-zero id, and `Unknown` otherwise. */
  lemma TopicLabelCases(p: Progress)
    ensures p.topicName.Some? && p.topicName.value != "" ==> TopicLabel(p) == p.topicName.value
    ensures (p.topicName.None? || p.topicName.value == "") && p.topicId.Some? && p.topicId.value != 0 ==>
              TopicLabel(p) == "Topic " + IntToString(p.topicId.value)
    ensures (p.topicName.None? || p.topicName.value == "") && (p.topicId.None? || p.topicId.value == 0) ==>
              TopicLabel(p) == "Unknown"
    ensures TopicLabel(p) != ""
  {
  }

  // ---------------------------------------------------------------------------
  // Chat history

  /** The filter of the history query: the conversation belongs to the user. */
  function ByUser(userId: int): Conversation -> bool {
    (c: Conversation) => c.userId == userId
  }

  /** The user's conversations in table order: the conversations at exactly
      the positions of the user's rows, in increasing order. */
  function ConversationsOf(conversations: seq<Conversation>, userId: int): (r: seq<Conversation>)
    ensures var ix := Positions(conversations, ByUser(userId));
      |r| == |ix| && forall k :: 0 <= k < |r| ==> r[k] == conversations[ix[k]]
    ensures |r| <= |conversations|
  {
    if conversations == [] then []
    else
      var earlier := ConversationsOf(conversations[..|conversations| - 1], userId);
      var last := conversations[|conversations| - 1];
      PositionsSnoc(conversations, ByUser(userId), earlier);
      if last.userId == userId then earlier + [last] else earlier
  }

  function Reverse<T>(s: seq<T>): (r: seq<T>)
    ensures |r| == |s| && forall k :: 0 <= k < |s| ==> r[k] == s[|s| - 1 - k]
  {
    if s == [] then [] else [s[|s| - 1]] + Reverse(s[..|s| - 1])
  }

  /** The history `chat_with_tutor` passes on: the newest three of the user's
      conversations (`order_by(timestamp.desc()).limit(3)`), put back into
      chronological order (`reversed`). */
  function RecentHistory(conversations: seq<Conversation>, userId: int): seq<Exchange> {
    var newestFirst := Reverse(ConversationsOf(conversations, userId));
    var limited := newestFirst[..if |newestFirst| < 3 then |newestFirst| else 3];
    var chronological := Reverse(limited);
    seq(|chronological|, k requires 0 <= k < |chronological| =>
      Exchange(chronological[k].message, chronological[k].response))
  }

  /** The history is the last (at most) three of the user's conversations,
      oldest first. */
  lemma RecentHistoryIsLastThree(conversations: seq<Conversation>, userId: int)
    ensures var mine := ConversationsOf(conversations, userId);
      var recent := LastThree(mine);
      RecentHistory(conversations, userId)
        == seq(|recent|, k requires 0 <= k < |recent| => Exchange(recent[k].message, recent[k].response))
  {
    var mine := ConversationsOf(conversations, userId);
    NewestThreeInOrder(mine);
  }

  /** Taking the newest three of a newest-first list and reversing them gives
      the last three, oldest first. */
  lemma NewestThreeInOrder<T>(mine: seq<T>)
    ensures var newestFirst := Reverse(mine);
      Reverse(newestFirst[..if |newestFirst| < 3 then |newestFirst| else 3]) == LastThree(mine)
  {
    var recent := LastThree(mine);
    var newestFirst := Reverse(mine);
    var limited := newestFirst[..if |newestFirst| < 3 then |newestFirst| else 3];
    var chronological := Reverse(limited);
    assert |chronological| == |recent|;
    forall k | 0 <= k < |recent|
      ensures chronological[k] == recent[k]
    {
      assert chronological[k] == limited[|limited| - 1 - k];
      assert limited[|limited| - 1 - k] == mine[|mine| - 1 - (|limited| - 1 - k)];
    }
  }

  // ---------------------------------------------------------------------------
  // Stateless handlers

  /** The body `generate_problem` returns: no solution. */
  datatype ProblemReply = ProblemReply(question: string, hints: seq<string>, topic: string, difficulty: real)

  /** `generate_problem`: the generated problem without its solution, echoing
      the request's topic and difficulty; it stores nothing. */
  function GenerateProblem(topic: string, difficulty: real, reply: string): (r: Result<ProblemReply>)
    ensures r.Err? <==> !(0.0 <= difficulty < 11.0)
    ensures r.Ok? ==> && r.value.question == ParseProblem(reply).question
                      && r.value.hints == ParseProblem(reply).hints
                      && r.value.topic == topic && r.value.difficulty == difficulty
  {
    match GeneratePracticeProblem(difficulty, reply)
    case Err(e) => Err(e)
    case Ok(p) => Ok(ProblemReply(p.question, p.hints, topic, difficulty))
  }

  /** The body `generate_learning_path` returns. */
  datatype PathReply = PathReply(subject: string, level: string, topics: seq<string>, totalTopics: int)

  /** `generate_learning_path` (the endpoint). */
  method GenerateLearningPath(subject: string, level: string, reply: string) returns (r: PathReply)
    ensures r.subject == subject && r.level == level
    ensures r.topics == TopicsOf(Split(reply, "\n"))
    ensures r.totalTopics == |r.topics|
  {
    var topics := ExtractTopics(reply);
    r := PathReply(subject, level, topics, |topics|);
  }

  // ---------------------------------------------------------------------------
  // Stateful handlers

  /** No row of the table belongs to the user. */
  predicate NoRowsOf(records: seq<Progress>, userId: int) {
    forall k :: 0 <= k < |records| ==> records[k].userId != userId
  }

  /** A user with no rows never matches, so the upsert inserts a first
      attempt: for a user missing from `users` that insert is the row whose
      `user_id` foreign key the commit rejects. */
  lemma UnknownUserInserts(records: seq<Progress>, userId: int, key: Key, isCorrect: bool)
    requires AllConsistent(records) && NoRowsOf(records, userId)
    ensures Upsert(records, userId, key, isCorrect) == Ok(records + [FirstAttempt(userId, key, isCorrect)])
  {
    NoMatch(records, userId, key);
  }

  /** The upsert followed by the commit: a user missing from `users` makes
      the commit fail with the foreign key violation, and nothing is stored. */
  function CommitUpsert(records: seq<Progress>, users: set<int>, userId: int, key: Key, isCorrect: bool): Result<seq<Progress>>
    requires AllConsistent(records)
  {
    if userId in users then Upsert(records, userId, key, isCorrect) else Err(IntegrityError)
  }

  datatype SubmitReply = SubmitReply(assessment: Assessment, progressUpdated: bool)
  datatype ChatReply = ChatReply(response: string, conversationId: int)

  const ProblemNotFound := "Problem not found"

  /** The tables the handlers use: the ids of the `users` rows, the problems,
      the progress rows and the conversations.  Conversation ids are assigned
      in insertion order starting from 1. */
  class Database {
    const users: set<int>
    var problems: map<int, StoredProblem>
    var progress: seq<Progress>
    var conversations: seq<Conversation>

    /** The counters are consistent, and the `user_id` foreign keys hold. */
    ghost predicate Valid()
      reads this
    {
      && AllConsistent(progress)
      && (forall k :: 0 <= k < |progress| ==> progress[k].userId in users)
      && (forall k :: 0 <= k < |conversations| ==> conversations[k].userId in users)
    }

    constructor (users: set<int>, problems: map<int, StoredProblem>)
      ensures Valid()
      ensures this.users == users && this.problems == problems && progress == [] && conversations == []
    {
      this.users := users;
      this.problems := problems;
      progress := [];
      conversations := [];
    }

    /** The progress bookkeeping both grading handlers share: look the record
        up by user and key, then update it in place or add a first attempt.
        When several records match, the lookup raises and nothing changes;
        a first attempt of an unknown user fails at the commit. */
    method RecordAnswer(userId: int, key: Key, isCorrect: bool) returns (fault: Option<Fault>)
      requires Valid()
      modifies this
      ensures Valid()
      ensures problems == old(problems) && conversations == old(conversations)
      ensures var outcome := CommitUpsert(old(progress), users, userId, key, isCorrect);
        && (outcome.Err? ==> fault == Some(outcome.fault) && progress == old(progress))
        && (outcome.Ok? ==> fault == None && progress == outcome.value)
    {
      UpsertEffect(progress, userId, key, isCorrect);
      if userId !in users {
        UnknownUserInserts(progress, userId, key, isCorrect);
      }
      var found := OneOrNone(progress, userId, key);
      match found {
        case Err(e) =>
          return Some(e);
        case Ok(Some(i)) =>
          progress := progress[i := Recorded(progress[i], isCorrect)];
        case Ok(None) =>
          if userId !in users {
            return Some(IntegrityError);
          }
          progress := progress + [FirstAttempt(userId, key, isCorrect)];
      }
      fault := None;
    }

    /** `submit_answer`: an unknown problem is a 404 that changes nothing; then
        the grading reply is parsed and the progress for (user, problem's
        topic) is updated or created. */
    method SubmitAnswer(userId: int, problemId: int, reply: string) returns (r: Result<SubmitReply>)
      requires Valid()
      modifies this
      ensures Valid()
      ensures problems == old(problems) && conversations == old(conversations)
      ensures problemId !in problems ==> r == Err(NotFound(ProblemNotFound)) && progress == old(progress)
      ensures problemId in problems ==>
        var assessment := ParseAssessment(reply);
        var outcome := CommitUpsert(old(progress), users, userId, ByTopicId(problems[problemId].topicId), assessment.isCorrect);
        && (outcome.Err? ==> r == Err(outcome.fault) && progress == old(progress))
        && (outcome.Ok? ==> r == Ok(SubmitReply(assessment, true)) && progress == outcome.value)
    {
      if problemId !in problems {
        return Err(NotFound(ProblemNotFound));
      }
      var problem := problems[problemId];
      var assessment := ParseAssessment(reply);
      var fault := RecordAnswer(userId, ByTopicId(problem.topicId), assessment.isCorrect);
      if fault.Some? {
        return Err(fault.value);
      }
      r := Ok(SubmitReply(assessment, true));
    }

    /** `assess_direct`: like `submit_answer` without a stored problem, keyed
        by topic name. */
    method AssessDirect(userId: int, topicName: string, reply: string) returns (r: Result<Assessment>)
      requires Valid()
      modifies this
      ensures Valid()
      ensures problems == old(problems) && conversations == old(conversations)
      ensures var assessment := ParseAssessment(reply);
        var outcome := CommitUpsert(old(progress), users, userId, ByTopicName(topicName), assessment.isCorrect);
        && (outcome.Err? ==> r == Err(outcome.fault) && progress == old(progress))
        && (outcome.Ok? ==> r == Ok(assessment) && progress == outcome.value)
    {
      var assessment := ParseAssessment(reply);
      var fault := RecordAnswer(userId, ByTopicName(topicName), assessment.isCorrect);
      if fault.Some? {
        return Err(fault.value);
      }
      r := Ok(assessment);
    }

    /** `chat_with_tutor`: builds the prompt from the user's recent history,
        stores exactly one new conversation with the model's reply and returns
        the reply with the new row's id.  For an unknown user the prompt is
        still sent, and the commit then fails with nothing stored. */
    method Chat(userId: int, message: string, topic: Option<string>, reply: string)
      returns (r: Result<ChatReply>, prompt: string)
      requires Valid()
      modifies this
      ensures Valid()
      ensures prompt == ChatPrompt(message, topic, RecentHistory(old(conversations), userId))
      ensures userId !in users ==> r == Err(IntegrityError) && conversations == old(conversations)
      ensures userId in users ==>
        && conversations == old(conversations) + [Conversation(userId, message, reply, None)]
        && r == Ok(ChatReply(reply, |conversations|))
      ensures problems == old(problems) && progress == old(progress)
    {
      var history := RecentHistory(conversations, userId);
      prompt := ChatPrompt(message, topic, history);
      if userId !in users {
        return Err(IntegrityError), prompt;
      }
      conversations := conversations + [Conversation(userId, message, reply, None)];
      r := Ok(ChatReply(reply, |conversations|));
    }

    /** `get_user_progress`. */
    function Report(userId: int): ProgressReport
      reads this
    {
      UserProgress(progress, userId)
    }
  }

  /** After a chat the user's newest conversation is the one just stored, so
      the next history ends with it. */
  lemma ChatExtendsHistory(conversations: seq<Conversation>, c: Conversation)
    ensures ConversationsOf(conversations + [c], c.userId) == ConversationsOf(conversations, c.userId) + [c]
    ensures var h := RecentHistory(conversations + [c], c.userId);
      |h| >= 1 && h[|h| - 1] == Exchange(c.message, c.response)
  {
    var all := conversations + [c];
    assert all[..|all| - 1] == conversations;
    RecentHistoryIsLastThree(all, c.userId);
  }
}
