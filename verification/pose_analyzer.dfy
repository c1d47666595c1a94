/**
 The posture scorer of the pose-analysis service
 (python-backend/pose_analyzer.py): the named landmarks kept from a detected
 pose, the general-posture rule that turns them into a score, a feedback line
 and per-check details, and the result shapes of a frame with no pose or a
 failed analysis.
 */
module PoseAnalyzer {
  import opened Wrappers
  import opened Text

  /** One landmark: normalised image coordinates, depth, and detection confidence. */
  datatype Landmark = Landmark(x: real, y: real, z: real, visibility: real)

  /** Landmarks by name. */
  type Landmarks = map<string, Landmark>

  // ---------------------------------------------------------------------
  // extract_landmarks
  // ---------------------------------------------------------------------

  /** The names given to the 13 pose indices the service keeps. */
  function NameOf(idx: nat): Option<string> {
    match idx
    case 0 => Some("nose")
    case 11 => Some("left_shoulder")
    case 12 => Some("right_shoulder")
    case 13 => Some("left_elbow")
    case 14 => Some("right_elbow")
    case 15 => Some("left_wrist")
    case 16 => Some("right_wrist")
    case 23 => Some("left_hip")
    case 24 => Some("right_hip")
    case 25 => Some("left_knee")
    case 26 => Some("right_knee")
    case 27 => Some("left_ankle")
    case 28 => Some("right_ankle")
    case _ => None
  }

  /** The pose index a kept name comes from. */
  function IndexOf(name: string): Option<nat> {
    if name == "nose" then Some(0)
    else if name == "left_shoulder" then Some(11)
    else if name == "right_shoulder" then Some(12)
    else if name == "left_elbow" then Some(13)
    else if name == "right_elbow" then Some(14)
    else if name == "left_wrist" then Some(15)
    else if name == "right_wrist" then Some(16)
    else if name == "left_hip" then Some(23)
    else if name == "right_hip" then Some(24)
    else if name == "left_knee" then Some(25)
    else if name == "right_knee" then Some(26)
    else if name == "left_ankle" then Some(27)
    else if name == "right_ankle" then Some(28)
    else None
  }

  /** The naming table is one-to-one: names and indices determine each other. */
  lemma NamesOneToOne(idx: nat, name: string)
    ensures NameOf(idx) == Some(name) <==> IndexOf(name) == Some(idx)
  {
  }

  /**
   `extract_landmarks`: walk the detected points in index order and keep those
   whose index has a name, under that name. `ExtractKeepsExactlyNamed` states
   which names come out and with which points.
   */
  function Extract(points: seq<Landmark>): (m: Landmarks)
    ensures |points| == 0 ==> m == map[]
  {
    if |points| == 0 then map[]
    else
      var m := Extract(points[..|points| - 1]);
      match NameOf(|points| - 1)
      case None => m
      case Some(name) => m[name := points[|points| - 1]]
  }

  /** The extracted map holds exactly the named indices that were detected, each under its own name. */
  lemma {:induction false} ExtractKeepsExactlyNamed(points: seq<Landmark>)
    ensures forall name :: name in Extract(points) <==> IndexOf(name).Some? && IndexOf(name).value < |points|
    ensures forall name :: name in Extract(points) ==> Extract(points)[name] == points[IndexOf(name).value]
  {
    if |points| > 0 {
      var idx := |points| - 1;
      var init := points[..idx];
      ExtractKeepsExactlyNamed(init);
      var m := Extract(points);
      forall name
        ensures name in m <==> IndexOf(name).Some? && IndexOf(name).value < |points|
        ensures name in m ==> m[name] == points[IndexOf(name).value]
      {
        NamesOneToOne(idx, name);
        if IndexOf(name).Some? && IndexOf(name).value < idx {
          assert init[IndexOf(name).value] == points[IndexOf(name).value];
        }
      }
    }
  }

  const KeptNames: set<string> := {
    "nose", "left_shoulder", "right_shoulder", "left_elbow", "right_elbow", "left_wrist", "right_wrist",
    "left_hip", "right_hip", "left_knee", "right_knee", "left_ankle", "right_ankle"}

  /** A full detection (MediaPipe reports 33 points) keeps exactly the 13 named landmarks. */
  lemma ExtractKeepsNamed(points: seq<Landmark>)
    requires |points| >= 29
    ensures Extract(points).Keys == KeptNames
  {
    ExtractKeepsExactlyNamed(points);
  }

  // ---------------------------------------------------------------------
  // analyze_general_posture
  // ---------------------------------------------------------------------

  /** A required landmark is usable when present with visibility at least 0.5. */
  predicate Usable(lm: Landmarks, name: string) {
    name in lm && lm[name].visibility >= 0.5
  }

  /** Both shoulders and both hips usable: the precondition of every alignment check. */
  predicate BodyVisible(lm: Landmarks) {
    Usable(lm, "left_shoulder") && Usable(lm, "right_shoulder") && Usable(lm, "left_hip") && Usable(lm, "right_hip")
  }

  function Abs(x: real): (r: real)
    ensures r >= 0.0 && (r == x || r == -x)
  {
    if x < 0.0 then -x else x
  }

  function ShoulderDiff(lm: Landmarks): real
    requires BodyVisible(lm)
  {
    Abs(lm["left_shoulder"].y - lm["right_shoulder"].y)
  }

  function HipDiff(lm: Landmarks): real
    requires BodyVisible(lm)
  {
    Abs(lm["left_hip"].y - lm["right_hip"].y)
  }

  /** Image y grows downwards: the shoulders' mean height must not lie below the hips'. */
  predicate Upright(lm: Landmarks)
    requires BodyVisible(lm)
  {
    (lm["left_shoulder"].y + lm["right_shoulder"].y) / 2.0 <= (lm["left_hip"].y + lm["right_hip"].y) / 2.0
  }

  /** How many landmarks are seen with confidence above 0.8. */
  function StableCount(lm: Landmarks): nat {
    |set name | name in lm && lm[name].visibility > 0.8|
  }

  /**
   One scored check: whether it passed, the points it costs when it fails,
   the message appended when it passes (the upright check appends none), and
   the message appended when it fails.
   */
  datatype Check = Check(passed: bool, cost: nat, onPass: Option<string>, onFail: string)

  const ShouldersMsg := "Keep your shoulders level"
  const HipsMsg := "Align your hips properly"
  const UprightMsg := "Maintain upright posture"
  const StabilityMsg := "Try to stay more stable"
  const FullBodyMsg := "Please ensure your full body is visible in the camera"

  /** The four checks in the order the rule runs them. */
  function Checks(lm: Landmarks): seq<Check>
    requires BodyVisible(lm)
  {
    [ Check(ShoulderDiff(lm) <= 0.05, 15, Some("Good shoulder alignment"), ShouldersMsg),
      Check(HipDiff(lm) <= 0.03, 10, Some("Good hip alignment"), HipsMsg),
      Check(Upright(lm), 20, None, UprightMsg),
      Check(StableCount(lm) >= 8, 10, Some("Good pose stability"), StabilityMsg) ]
  }

  /** What the failed checks cost in total. */
  function Penalty(checks: seq<Check>): nat {
    if |checks| == 0 then 0
    else (if checks[0].passed then 0 else checks[0].cost) + Penalty(checks[1..])
  }

  /** The message a check contributes to the feedback list. */
  function MessagesOf(c: Check): seq<string> {
    if !c.passed then [c.onFail] else if c.onPass.Some? then [c.onPass.value] else []
  }

  /** Every check's message, in check order. */
  function AllMessages(checks: seq<Check>): seq<string> {
    if |checks| == 0 then [] else MessagesOf(checks[0]) + AllMessages(checks[1..])
  }

  /**
   Run the checks in order, deducting each failed check's cost from the score
   and appending each check's message.
   */
  function RunChecks(checks: seq<Check>, score: int, feedback: seq<string>): (r: (int, seq<string>))
    ensures r.0 == score - Penalty(checks)
    ensures r.1 == feedback + AllMessages(checks)
  {
    if |checks| == 0 then (score, feedback)
    else
      var c := checks[0];
      var r := RunChecks(checks[1..], score - (if c.passed then 0 else c.cost), feedback + MessagesOf(c));
      AppendAssoc(feedback, MessagesOf(c), AllMessages(checks[1..]));
      r
  }

  /** Penalty and messages of a run of four checks, written out. */
  lemma FourChecks(cs: seq<Check>)
    requires |cs| == 4
    ensures Penalty(cs) == (if cs[0].passed then 0 else cs[0].cost) + (if cs[1].passed then 0 else cs[1].cost)
                         + (if cs[2].passed then 0 else cs[2].cost) + (if cs[3].passed then 0 else cs[3].cost)
    ensures AllMessages(cs) == MessagesOf(cs[0]) + MessagesOf(cs[1]) + MessagesOf(cs[2]) + MessagesOf(cs[3])
  {
    var t3 := [cs[3]];
    var t2 := [cs[2]] + t3;
    var t1 := [cs[1]] + t2;
    assert cs == [cs[0]] + t1;
    assert t3 == [cs[3]] + [];
    CheckStep(cs[3], []);
    CheckStep(cs[2], t3);
    CheckStep(cs[1], t2);
    CheckStep(cs[0], t1);
    var m0, m1, m2, m3 := MessagesOf(cs[0]), MessagesOf(cs[1]), MessagesOf(cs[2]), MessagesOf(cs[3]);
    AppendAssoc(m3, [], []);
    AppendAssoc(m1, m2, m3);
    AppendAssoc(m0, m1 + m2, m3);
    AppendAssoc(m0, m1, m2);
  }

  /** Concatenation regroups freely. */
  lemma AppendAssoc<T>(a: seq<T>, b: seq<T>, c: seq<T>)
    ensures a + (b + c) == a + b + c
    ensures a + [] == a
  {
  }

  /** Running one check in front of others: its cost and message come first. */
  lemma CheckStep(c: Check, rest: seq<Check>)
    ensures Penalty([c] + rest) == (if c.passed then 0 else c.cost) + Penalty(rest)
    ensures AllMessages([c] + rest) == MessagesOf(c) + AllMessages(rest)
  {
    assert ([c] + rest)[1..] == rest;
  }

  /** The result detail of one alignment check: the measured difference and whether it is within tolerance. */
  datatype CheckDetail = CheckDetail(heightDifference: real, good: bool)

  /** The `details` dictionary: the error marker, or the two alignment details. */
  datatype Details = InsufficientVisibility | Alignment(shoulder: CheckDetail, hip: CheckDetail)

  datatype Analysis = Analysis(feedback: string, accuracy: int, details: Details)

  /**
   `analyze_general_posture`: 20 with a fixed message when a shoulder or hip
   is missing or poorly seen; otherwise 100 less the cost of each failed
   check, floored at 0, with the checks' messages joined by `" | "`.
   */
  function GeneralPosture(lm: Landmarks): (a: Analysis)
    ensures !BodyVisible(lm) ==> a == Analysis(FullBodyMsg, 20, InsufficientVisibility)
    ensures BodyVisible(lm) ==> 45 <= a.accuracy <= 100
    ensures BodyVisible(lm) ==>
      (a.accuracy == 100 <==> ShoulderDiff(lm) <= 0.05 && HipDiff(lm) <= 0.03 && Upright(lm) && StableCount(lm) >= 8)
    ensures BodyVisible(lm) ==>
      a.details == Alignment(CheckDetail(ShoulderDiff(lm), ShoulderDiff(lm) <= 0.05), CheckDetail(HipDiff(lm), HipDiff(lm) <= 0.03))
    ensures a.feedback != "" && a.feedback != "Great posture!"
  {
    if !BodyVisible(lm) then Analysis(FullBodyMsg, 20, InsufficientVisibility)
    else
      var checks := Checks(lm);
      var (score, feedback) := RunChecks(checks, 100, []);
      PenaltyOfChecks(lm);
      FourChecks(checks);
      var text := if |feedback| > 0 then Join(feedback, " | ") else "Great posture!";
      assert feedback[0] == MessagesOf(checks[0])[0];
      FeedbackIsNotFallback(feedback);
      Analysis(text, if score < 0 then 0 else score,
               Alignment(CheckDetail(ShoulderDiff(lm), ShoulderDiff(lm) <= 0.05),
                         CheckDetail(HipDiff(lm), HipDiff(lm) <= 0.03)))
  }

  /** The penalty is the sum of the failed checks' costs, and at most 55. */
  lemma PenaltyOfChecks(lm: Landmarks)
    requires BodyVisible(lm)
    ensures Penalty(Checks(lm)) ==
      (if ShoulderDiff(lm) <= 0.05 then 0 else 15) + (if HipDiff(lm) <= 0.03 then 0 else 10)
      + (if Upright(lm) then 0 else 20) + (if StableCount(lm) >= 8 then 0 else 10)
    ensures Penalty(Checks(lm)) <= 55
  {
    FourChecks(Checks(lm));
  }

  /** A joined feedback list that starts with a check message is never the fallback text. */
  lemma FeedbackIsNotFallback(feedback: seq<string>)
    requires |feedback| > 0
    requires feedback[0] == "Good shoulder alignment" || feedback[0] == ShouldersMsg
    ensures Join(feedback, " | ") != "Great posture!"
  {
    ShoulderMessageSecondChar(feedback[0]);
    PrefixDecides(Join(feedback, " | "), feedback[0]);
  }

  /** Both shoulder messages have a second character other than `r`. */
  lemma ShoulderMessageSecondChar(m: string)
    requires m == "Good shoulder alignment" || m == ShouldersMsg
    ensures |m| > 1 && m[1] != 'r'
  {
    assert ShouldersMsg[1] == 'e' && "Good shoulder alignment"[1] == 'o';
  }

  /** A text whose second character is not `r` is not "Great posture!", and neither is any extension of it. */
  lemma PrefixDecides(r: string, p: string)
    requires StartsWith(r, p) && |p| > 1 && p[1] != 'r'
    ensures r != "Great posture!"
  {
    assert r[1] == r[..|p|][1];
  }

  /** The score rule: 100 less 15, 10, 20 and 10 for the failed shoulder, hip, upright and stability checks. */
  lemma {:induction false} ScoreIsFullLessDeductions(lm: Landmarks)
    requires BodyVisible(lm)
    ensures GeneralPosture(lm).accuracy == 100
      - (if ShoulderDiff(lm) <= 0.05 then 0 else 15) - (if HipDiff(lm) <= 0.03 then 0 else 10)
      - (if Upright(lm) then 0 else 20) - (if StableCount(lm) >= 8 then 0 else 10)
  {
    PenaltyOfChecks(lm);
  }

  /** The feedback list of a visible body, written out in check order. */
  function Messages(lm: Landmarks): seq<string>
    requires BodyVisible(lm)
  {
    [if ShoulderDiff(lm) <= 0.05 then "Good shoulder alignment" else ShouldersMsg]
    + [if HipDiff(lm) <= 0.03 then "Good hip alignment" else HipsMsg]
    + (if Upright(lm) then [] else [UprightMsg])
    + [if StableCount(lm) >= 8 then "Good pose stability" else StabilityMsg]
  }

  /**
   The feedback text joins exactly the check messages, in check order: one
   per alignment check, the upright message only when that check fails, and
   the stability message last.
   */
  lemma {:induction false} FeedbackInCheckOrder(lm: Landmarks)
    requires BodyVisible(lm)
    ensures GeneralPosture(lm).feedback == Join(Messages(lm), " | ")
    ensures 3 <= |Messages(lm)| <= 4
    ensures UprightMsg in Messages(lm) <==> !Upright(lm)
  {
    var cs := Checks(lm);
    FourChecks(cs);
    CheckMessages(lm);
    assert AllMessages(cs) == Messages(lm);
    assert RunChecks(cs, 100, []).1 == Messages(lm) by {
      assert [] + AllMessages(cs) == AllMessages(cs);
    }
    MessagesShape(lm);
  }

  /** Three or four messages; the upright one among them exactly when that check fails. */
  lemma MessagesShape(lm: Landmarks)
    requires BodyVisible(lm)
    ensures 3 <= |Messages(lm)| <= 4
    ensures UprightMsg in Messages(lm) <==> !Upright(lm)
  {
    var ms := Messages(lm);
    OnlyUprightMsgIsUpright();
    if Upright(lm) {
      assert ms == [ms[0], ms[1], ms[2]];
    } else {
      assert ms[2] == UprightMsg;
    }
  }

  lemma OnlyUprightMsgIsUpright()
    ensures "Good shoulder alignment" != UprightMsg && ShouldersMsg != UprightMsg
    ensures "Good hip alignment" != UprightMsg && HipsMsg != UprightMsg
    ensures "Good pose stability" != UprightMsg && StabilityMsg != UprightMsg
  {
    assert |"Good shoulder alignment"| != |UprightMsg| && |ShouldersMsg| != |UprightMsg|;
    assert |"Good hip alignment"| != |UprightMsg| && HipsMsg[0] != UprightMsg[0];
    assert |"Good pose stability"| != |UprightMsg| && |StabilityMsg| != |UprightMsg|;
  }

  /** The message each of the four checks contributes. */
  lemma CheckMessages(lm: Landmarks)
    requires BodyVisible(lm)
    ensures MessagesOf(Checks(lm)[0]) == [if ShoulderDiff(lm) <= 0.05 then "Good shoulder alignment" else ShouldersMsg]
    ensures MessagesOf(Checks(lm)[1]) == [if HipDiff(lm) <= 0.03 then "Good hip alignment" else HipsMsg]
    ensures MessagesOf(Checks(lm)[2]) == (if Upright(lm) then [] else [UprightMsg])
    ensures MessagesOf(Checks(lm)[3]) == [if StableCount(lm) >= 8 then "Good pose stability" else StabilityMsg]
  {
  }

  // ---------------------------------------------------------------------
  // analyze_pose
  // ---------------------------------------------------------------------

  /** What pose detection gave for a frame: an exception, no pose, or the detected points. */
  datatype Detection = AnalysisException(message: string) | NoPose | Detected(points: seq<Landmark>)

  datatype PoseResult = PoseResult(success: bool, feedback: string, accuracy: int,
                                   landmarks: Option<Landmarks>, details: Option<Details>)

  const NoPoseMsg := "No pose detected. Please ensure you're fully visible in the camera."

  /** `analyze_pose` after decoding: the reply for one frame. */
  function AnalyzePose(d: Detection): (r: PoseResult)
    ensures r.success <==> d.Detected?
    ensures !r.success ==> r.accuracy == 0 && r.landmarks.None? && r.details.None?
    ensures d.NoPose? ==> r.feedback == NoPoseMsg
    ensures d.AnalysisException? ==> r.feedback == "Analysis error: " + d.message
    ensures r.success ==> 20 <= r.accuracy <= 100 && r.landmarks == Some(Extract(d.points))
  {
    match d
    case AnalysisException(msg) => PoseResult(false, "Analysis error: " + msg, 0, None, None)
    case NoPose => PoseResult(false, NoPoseMsg, 0, None, None)
    case Detected(points) =>
      var lm := Extract(points);
      var a := GeneralPosture(lm);
      PoseResult(true, a.feedback, a.accuracy, Some(lm), Some(a.details))
  }

  /** Every reply's accuracy is a percentage. */
  lemma AccuracyIsPercentage(d: Detection)
    ensures 0 <= AnalyzePose(d).accuracy <= 100
  {
  }
}
