/**
 The practice-session controller of the pose page
 (public/js/pose-session-manager.js): the session flag, the last accepted
 analysis and the current accuracy, the guarded start/analyse/save/stop
 actions, and the display rules for the accuracy status, its colour, the
 elapsed-time label and the statistics panel.

 Display elements are modelled by what they show: the accuracy number, the
 status line, the feedback line, the colour and the timer label.
 */
module SessionManager {
  import opened Wrappers
  import opened Text
  import opened Crypto
  import opened Auth
  import opened SessionModel
  import opened Analytics
  import opened PoseAnalyzer

  /** The analysis reply as the page reads it; every field may be missing. */
  datatype AnalysisResult = AnalysisResult(success: Option<bool>, accuracy: Option<int>,
                                           feedback: Option<string>, landmarks: Option<string>)

  datatype Colour = Green | Orange | Red

  datatype ClientState = ClientState(
    sessionActive: bool,
    startTime: Option<Time>,
    timerRunning: bool,
    currentAccuracy: int,
    lastAnalysis: Option<AnalysisResult>,
    shownAccuracy: int,
    statusText: string,
    feedbackText: string,
    colour: Option<Colour>,
    timerText: string)

  /** The page as the constructor leaves it. */
  const Initial := ClientState(false, None, false, 0, None, 0, "", "", None, "00:00")

  // ---------------------------------------------------------------------
  // Bands
  // ---------------------------------------------------------------------

  datatype Status = Poor | NeedsImprovement | Good | Excellent

  /** `getAccuracyStatus`: the form rating of a score. */
  function AccuracyStatus(accuracy: int): Status {
    if accuracy >= 85 then Excellent
    else if accuracy >= 70 then Good
    else if accuracy >= 50 then NeedsImprovement
    else Poor
  }

  function StatusText(s: Status): string {
    match s
    case Excellent => "Excellent Form!"
    case Good => "Good Form"
    case NeedsImprovement => "Needs Improvement"
    case Poor => "Poor Form"
  }

  function Rank(s: Status): nat {
    match s
    case Poor => 0
    case NeedsImprovement => 1
    case Good => 2
    case Excellent => 3
  }

  /** A higher score never earns a worse rating. */
  lemma StatusMonotone(a: int, b: int)
    requires a <= b
    ensures Rank(AccuracyStatus(a)) <= Rank(AccuracyStatus(b))
  {
  }

  /** The rating changes only at 50, 70 and 85. */
  lemma StatusBoundaries(a: int)
    ensures AccuracyStatus(a) == Excellent <==> a >= 85
    ensures AccuracyStatus(a) == Poor <==> a < 50
    ensures Rank(AccuracyStatus(a)) == (if a >= 50 then 1 else 0) + (if a >= 70 then 1 else 0) + (if a >= 85 then 1 else 0)
  {
  }

  /** `updateAccuracyColor`: the colour of the live score. */
  function LiveColour(accuracy: int): Colour {
    if accuracy >= 80 then Green else if accuracy >= 60 then Orange else Red
  }

  datatype HistoryClass = TextSuccess | TextWarning | TextDanger

  /** The class a history row gets for its score. */
  function RowClass(accuracy: int): HistoryClass {
    if accuracy >= 80 then TextSuccess else if accuracy >= 60 then TextWarning else TextDanger
  }

  /** The inline colour a history row gets for its score. */
  function RowColour(accuracy: int): Colour {
    if accuracy >= 80 then Green else if accuracy >= 60 then Orange else Red
  }

  function ClassColour(c: HistoryClass): Colour {
    match c
    case TextSuccess => Green
    case TextWarning => Orange
    case TextDanger => Red
  }

  /** The live score and the history rows use the same thresholds, so a score looks the same in both. */
  lemma ColoursAgree(accuracy: int)
    ensures RowColour(accuracy) == LiveColour(accuracy)
    ensures ClassColour(RowClass(accuracy)) == LiveColour(accuracy)
  {
  }

  // ---------------------------------------------------------------------
  // Time
  // ---------------------------------------------------------------------

  /** `getSessionDuration`: whole seconds since the session start (`Math.floor`), or 0 before any start. */
  function SessionDuration(st: ClientState, now: Time): (d: int)
    ensures st.startTime.None? ==> d == 0
    ensures st.startTime.Some? ==> d * 1000 <= now - st.startTime.value < (d + 1) * 1000
  {
    match st.startTime
    case None => 0
    case Some(t) => (now - t) / 1000
  }

  /** The timer label: minutes and seconds, each padded to two digits. */
  function TimerText(elapsed: nat): string {
    FieldsText(elapsed / 60, elapsed % 60)
  }

  /** `mm:ss` from a minute count and a second count. */
  function FieldsText(minutes: nat, seconds: nat): string {
    PadTwo(NatText(minutes)) + ":" + PadTwo(NatText(seconds))
  }

  /**
   Reads a label back: digits, a colon, then two digits below 60, giving
   minutes·60 + seconds; anything else is not a timer label.
   */
  function ReadTimer(t: string): (r: Option<nat>)
    ensures r.Some? ==> |t| >= 5 && t[|t| - 3] == ':'
  {
    if |t| >= 5 && t[|t| - 3] == ':' && AllDigits(t[..|t| - 3]) && AllDigits(t[|t| - 2..])
      && DigitsValue(t[|t| - 2..]) < 60
    then Some(DigitsValue(t[..|t| - 3]) * 60 + DigitsValue(t[|t| - 2..]))
    else None
  }

  /**
   Reading the label back gives the elapsed time. Padding never truncates, so
   the label is five characters long exactly below 100 minutes.
   */
  lemma {:induction false} TimerReadsBack(elapsed: nat)
    ensures ReadTimer(TimerText(elapsed)) == Some(elapsed)
    ensures |TimerText(elapsed)| == 5 <==> elapsed < 6000
  {
    MinutesBelowHundred(elapsed);
    FieldsReadBack(elapsed / 60, elapsed % 60);
  }

  /** The label of a minute count and a second count below 60 reads back as their total. */
  lemma FieldsReadBack(minutes: nat, seconds: nat)
    requires seconds < 60
    ensures ReadTimer(FieldsText(minutes, seconds)) == Some(minutes * 60 + seconds)
    ensures |FieldsText(minutes, seconds)| == 5 <==> minutes < 100
  {
    PaddedField(minutes);
    PaddedField(seconds);
    ReadLabel(PadTwo(NatText(minutes)), PadTwo(NatText(seconds)), minutes, seconds);
  }

  /** A label built from two digit fields, the second two digits below 60, reads back as minutes·60 + seconds. */
  lemma ReadLabel(mm: string, ss: string, minutes: nat, seconds: nat)
    requires AllDigits(mm) && AllDigits(ss) && |mm| >= 2 && |ss| == 2
    requires DigitsValue(mm) == minutes && DigitsValue(ss) == seconds < 60
    ensures ReadTimer(mm + ":" + ss) == Some(minutes * 60 + seconds)
    ensures |mm + ":" + ss| == |mm| + 3
  {
    var t := mm + ":" + ss;
    LabelParts(mm, ss);
    assert t[..|t| - 3] == mm && t[|t| - 2..] == ss && t[|t| - 3] == ':';
  }

  lemma MinutesBelowHundred(elapsed: nat)
    ensures elapsed / 60 < 100 <==> elapsed < 6000
    ensures elapsed / 60 * 60 + elapsed % 60 == elapsed && elapsed % 60 < 60
  {
  }

  /** A padded number reads back as itself, in two characters exactly when it is below 100. */
  lemma PaddedField(n: nat)
    ensures var p := PadTwo(NatText(n));
      && AllDigits(p) && DigitsValue(p) == n && |p| >= 2
      && (|p| == 2 <==> n < 100)
  {
    NatTextLength(n);
    PadTwoKeepsValue(NatText(n));
    NatTextRoundTrip(n);
  }

  /** The two halves of `mm:ss` sit before and after the third-last character. */
  lemma LabelParts(mm: string, ss: string)
    requires |ss| == 2
    ensures var t := mm + ":" + ss;
      && |t| == |mm| + 3 && t[|t| - 3] == ':' && t[..|t| - 3] == mm && t[|t| - 2..] == ss
  {
    var t := mm + ":" + ss;
    assert t[..|t| - 3] == mm;
    assert t[|t| - 2..] == ss;
  }

  // ---------------------------------------------------------------------
  // Actions
  // ---------------------------------------------------------------------

  const StartedStatus := "Session started - begin pose detection"
  const StartFirst := "Please start a session first by clicking \"Start Pose Detection\""
  const NothingToSave := "No session data to save. Please analyze a pose first."

  /** `startSession`: active, clock started, score shown as 0. The last analysis is kept. */
  function StartSession(st: ClientState, now: Time): (st': ClientState)
    ensures st'.sessionActive && st'.timerRunning && st'.startTime == Some(now)
    ensures st'.currentAccuracy == st.currentAccuracy && st'.lastAnalysis == st.lastAnalysis
    ensures st'.shownAccuracy == 0 && st'.statusText == StartedStatus
  {
    st.(sessionActive := true, startTime := Some(now), timerRunning := true,
        shownAccuracy := 0, statusText := StartedStatus,
        feedbackText := "Session started! Position yourself in front of the camera.")
  }

  /**
   `analyzePose`: with no active session only the feedback line changes and
   no frame is sent; otherwise a frame is sent.
   */
  function AnalyzePose(st: ClientState): (r: (ClientState, bool))
    ensures r.1 <==> st.sessionActive
    ensures !st.sessionActive ==> r.0 == st.(feedbackText := StartFirst)
    ensures st.sessionActive ==> r.0.(feedbackText := st.feedbackText) == st
  {
    if !st.sessionActive then (st.(feedbackText := StartFirst), false)
    else (st.(feedbackText := "Analyzing pose..."), true)
  }

  /** `result.success !== false`: a missing flag counts as success. */
  predicate Accepted(result: AnalysisResult) {
    result.success != Some(false)
  }

  /**
   `handleAnalysisResult`: an accepted reply becomes the current accuracy
   (`accuracy || 0`) and the last analysis; a refused one only changes what
   is shown.
   */
  function HandleAnalysisResult(st: ClientState, result: AnalysisResult): (st': ClientState)
    ensures Accepted(result) ==>
      && st'.currentAccuracy == OrZero(result.accuracy) && st'.lastAnalysis == Some(result)
      && st'.shownAccuracy == st'.currentAccuracy
      && st'.statusText == StatusText(AccuracyStatus(st'.currentAccuracy))
      && st'.colour == Some(LiveColour(st'.currentAccuracy))
    ensures !Accepted(result) ==>
      && st'.currentAccuracy == st.currentAccuracy && st'.lastAnalysis == st.lastAnalysis
      && st'.shownAccuracy == 0 && st'.statusText == "No pose detected" && st'.colour == st.colour
    ensures st'.sessionActive == st.sessionActive && st'.startTime == st.startTime
  {
    if Accepted(result) then
      var accuracy := OrZero(result.accuracy);
      st.(currentAccuracy := accuracy, lastAnalysis := Some(result), shownAccuracy := accuracy,
          statusText := StatusText(AccuracyStatus(accuracy)),
          feedbackText := OrText(result.feedback, "Analysis complete"),
          colour := Some(LiveColour(accuracy)))
    else
      st.(feedbackText := OrText(result.feedback, "No pose detected"), shownAccuracy := 0,
          statusText := "No pose detected")
  }

  /** The body the page posts to save a session. */
  datatype SavePayload = SavePayload(accuracy: int, feedback: string, poseName: string,
                                     landmarks: Option<string>, duration: int)

  /**
   `saveSession`: nothing is sent unless a session is active and an analysis
   has been accepted; the payload carries the current accuracy, the last
   analysis' feedback and landmarks, the fixed pose name and the duration.
   */
  function SaveSession(st: ClientState, now: Time): (r: (ClientState, Option<SavePayload>))
    ensures r.1.Some? <==> st.sessionActive && st.lastAnalysis.Some?
    ensures r.1.None? ==> r.0 == st.(feedbackText := NothingToSave)
    ensures r.1.Some? ==>
      && r.0 == st
      && r.1.value.poseName == DefaultPoseName
      && r.1.value.accuracy == st.currentAccuracy
      && r.1.value.feedback == OrText(st.lastAnalysis.value.feedback, "")
      && r.1.value.landmarks == st.lastAnalysis.value.landmarks
      && r.1.value.duration == SessionDuration(st, now)
  {
    if !st.sessionActive || st.lastAnalysis.None? then (st.(feedbackText := NothingToSave), None)
    else
      var last := st.lastAnalysis.value;
      (st, Some(SavePayload(st.currentAccuracy, OrText(last.feedback, ""), DefaultPoseName,
                            last.landmarks, SessionDuration(st, now))))
  }

  /** `stopSession`: inactive, clock stopped and reset; the score and last analysis stay. */
  function StopSession(st: ClientState): (st': ClientState)
    ensures !st'.sessionActive && !st'.timerRunning && st'.timerText == "00:00"
    ensures st'.currentAccuracy == st.currentAccuracy && st'.lastAnalysis == st.lastAnalysis
    ensures st'.startTime == st.startTime
    ensures st'.shownAccuracy == 0 && st'.statusText == "Session stopped"
  {
    st.(sessionActive := false, timerRunning := false, timerText := "00:00",
        shownAccuracy := 0, statusText := "Session stopped",
        feedbackText := "Session stopped. Click \"Start Pose Detection\" to begin a new session.")
  }

  /** Nothing is ever sent from an inactive session, whatever was analysed before. */
  lemma StoppedSessionSavesNothing(st: ClientState, now: Time)
    ensures SaveSession(StopSession(st), now).1.None?
    ensures AnalyzePose(StopSession(st)).1 == false
  {
  }

  /**
   Stopping does not forget the last analysis: once a new session starts, a
   save is sent at once, carrying the previous session's accuracy.
   */
  lemma RestartSavesPreviousAnalysis(st: ClientState, now: Time)
    requires st.lastAnalysis.Some?
    ensures var st' := StartSession(StopSession(st), now);
      SaveSession(st', now).1 == Some(SavePayload(st.currentAccuracy, OrText(st.lastAnalysis.value.feedback, ""),
                                                  DefaultPoseName, st.lastAnalysis.value.landmarks, 0))
  {
  }

  // ---------------------------------------------------------------------
  // Statistics panel
  // ---------------------------------------------------------------------

  /** The statistics reply as the page reads it. */
  datatype StatsData = StatsData(todayCount: Option<int>, todayAverage: Option<int>,
                                 recentSessions: Option<seq<int>>, lastAccuracy: Option<int>)

  datatype AverageShown = Percent(value: int) | Dashes

  datatype StatsPanel = StatsPanel(todayCount: int, todayAverage: AverageShown, best: int, total: nat)

  function MaxOf(xs: seq<int>): (m: int)
    requires |xs| > 0
    ensures m in xs && forall k :: 0 <= k < |xs| ==> xs[k] <= m
  {
    if |xs| == 1 then xs[0]
    else
      var m := MaxOf(xs[1..]);
      assert forall k :: 1 <= k < |xs| ==> xs[k] == xs[1..][k - 1];
      if xs[0] >= m then xs[0] else m
  }

  /**
   `updateStatsDisplay`: today's count, today's average (`--` when it is 0 or
   missing), the best of the recent scores (else the last accuracy, else 0),
   and the number of recent sessions.
   */
  function StatsDisplay(data: StatsData): (p: StatsPanel)
    ensures p.todayCount == OrZero(data.todayCount)
    ensures p.todayAverage == Dashes <==> OrZero(data.todayAverage) == 0
    ensures p.todayAverage.Percent? ==> p.todayAverage.value == data.todayAverage.value
    ensures data.recentSessions.Some? && |data.recentSessions.value| > 0 ==>
      p.best in data.recentSessions.value && forall k :: 0 <= k < |data.recentSessions.value| ==> data.recentSessions.value[k] <= p.best
    ensures data.recentSessions.None? || |data.recentSessions.value| == 0 ==> p.best == OrZero(data.lastAccuracy)
    ensures p.total == if data.recentSessions.Some? then |data.recentSessions.value| else 0
  {
    var recent := data.recentSessions;
    StatsPanel(
      OrZero(data.todayCount),
      if OrZero(data.todayAverage) != 0 then Percent(data.todayAverage.value) else Dashes,
      if recent.Some? && |recent.value| > 0 then MaxOf(recent.value) else OrZero(data.lastAccuracy),
      if recent.Some? then |recent.value| else 0)
  }

  function Accuracies(rs: seq<SessionRecord>): (xs: seq<int>)
    ensures |xs| == |rs| && forall k :: 0 <= k < |rs| ==> xs[k] == rs[k].accuracy
  {
    if |rs| == 0 then [] else [rs[0].accuracy] + Accuracies(rs[1..])
  }

  /** The JSON the statistics endpoint sends, as the page reads it. */
  function Received(a: AccuracyStats): StatsData {
    StatsData(Some(a.todayCount), Some(a.todayAverage), Some(Accuracies(a.recentSessions)), Some(a.lastAccuracy))
  }

  /**
   Against the statistics endpoint, "best" is the best of the three newest
   scores (never below the newest one), and "total" is at most 3 — the
   number of recent sessions shown, not the number of sessions stored.
   */
  lemma {:induction false} BestOfThreeNewest(log: seq<SessionRecord>, uid: Option<UserId>, midnight: Time)
    requires Count(log, uid) > 0
    ensures var p := StatsDisplay(Received(AccuracyStatsOf(log, uid, midnight)));
      && p.total == Min(3, Count(log, uid))
      && p.best >= AccuracyStatsOf(log, uid, midnight).lastAccuracy
      && (forall k :: 0 <= k < |Newest(log, uid, 3)| ==> Newest(log, uid, 3)[k].accuracy <= p.best)
      && (exists k :: 0 <= k < |Newest(log, uid, 3)| && Newest(log, uid, 3)[k].accuracy == p.best)
  {
    var a := AccuracyStatsOf(log, uid, midnight);
    RecentAreTheThreeNewest(log, uid, midnight);
    NewestPrefix(log, uid, 1, 3);
    assert a.recentSessions[..1] == Newest(log, uid, 1);
    DisplayedBest(a);
  }

  /** With recent sessions in the reply, "best" is the highest of their scores and "total" their number. */
  lemma DisplayedBest(a: AccuracyStats)
    requires |a.recentSessions| > 0
    ensures var p := StatsDisplay(Received(a));
      && p.total == |a.recentSessions|
      && (forall k :: 0 <= k < |a.recentSessions| ==> a.recentSessions[k].accuracy <= p.best)
      && (exists k :: 0 <= k < |a.recentSessions| && a.recentSessions[k].accuracy == p.best)
  {
    var p := StatsDisplay(Received(a));
    var xs := Accuracies(a.recentSessions);
    var k :| 0 <= k < |xs| && xs[k] == p.best;
    assert a.recentSessions[k].accuracy == p.best;
  }

  // ---------------------------------------------------------------------
  // From the analyser to the store
  // ---------------------------------------------------------------------

  /** A pose-service reply as it reaches the page; the landmark map arrives in serialised form. */
  function FromService(r: PoseResult, serialise: Landmarks -> string): AnalysisResult {
    AnalysisResult(Some(r.success), Some(r.accuracy), Some(r.feedback),
                   if r.landmarks.Some? then Some(serialise(r.landmarks.value)) else None)
  }

  /** The page's current accuracy is a percentage. */
  predicate ScoreInRange(st: ClientState) {
    0 <= st.currentAccuracy <= 100
  }

  /** Handling any pose-service reply keeps the current accuracy a percentage. */
  lemma HandlingKeepsScoreInRange(st: ClientState, d: Detection, serialise: Landmarks -> string)
    requires ScoreInRange(st)
    ensures ScoreInRange(HandleAnalysisResult(st, FromService(PoseAnalyzer.AnalyzePose(d), serialise)))
  {
    AccuracyIsPercentage(d);
  }

  /** The request body the save handler reads from the page's payload. */
  function AsSaveBody(p: SavePayload): SaveBody {
    SaveBody(Some(p.accuracy), Some(p.feedback), Some(p.poseName), p.landmarks)
  }

  /**
   A save the page sends while its score is a percentage is accepted by the
   server: both logs grow by one record with that score.
   */
  lemma PageSavesAreStored(st: ClientState, now: Time, env: Env, store: Store, cookies: map<string, string>)
    requires ScoreInRange(st)
    requires SaveSession(st, now).1.Some?
    ensures var body := AsSaveBody(SaveSession(st, now).1.value);
      && Analytics.SaveSession(env, store, cookies, body, now).1.Saved?
      && Analytics.SaveSession(env, store, cookies, body, now).0.sessions[|store.sessions|].accuracy == st.currentAccuracy
  {
  }
}
