/**
 The session log and the analytics endpoints of App.js: the identity the
 views and the `/api/...` handlers read from the access cookie, the save rule
 of `/api/save-session` (with the legacy progress log written beside it), the
 scoped newest-first queries, and the aggregates of `/api/session-history`
 and `/api/accuracy-stats`.

 The store is append-only and the save handler stamps each record with the
 current time, so the model takes the log in append order to be in date
 order (`Chronological`); the newest-first queries return the scoped records
 from the end of the log backwards.
 */
module Analytics {
  import opened Wrappers
  import opened Crypto
  import opened Auth
  import opened SessionModel

  // ---------------------------------------------------------------------
  // Identity read from the access cookie
  // ---------------------------------------------------------------------

  /** The four profile fields the views may see; nothing else of the token. */
  datatype ViewUser = ViewUser(id: Option<UserId>, username: string, email: string, fullName: string)

  /**
   The view-locals middleware: a user is shown only when the `accessToken`
   cookie is present and non-empty, the access secret is set, and the token
   verifies; a failed verification is swallowed and leaves no user.
   */
  function ViewIdentity(env: Env, cookies: map<string, string>, now: Time): (u: Option<ViewUser>)
    ensures u.Some? <==>
      && Truthy(Field(cookies, "accessToken")) && env.accessSecretSet
      && Verify(env, AccessDomain, cookies["accessToken"], now).Some?
    ensures u.Some? ==>
      var p := env.decode(AccessDomain, cookies["accessToken"]).value.payload;
      u.value == ViewUser(p.id, p.username, p.email, p.fullName)
  {
    var token := Field(cookies, "accessToken");
    if Truthy(token) && env.accessSecretSet then
      match Verify(env, AccessDomain, token.value, now)
      case None => None
      case Some(c) => Some(ViewUser(c.payload.id, c.payload.username, c.payload.email, c.payload.fullName))
    else None
  }

  /**
   The identity the three `/api/...` handlers read: the token's `_id` under
   the same conditions as the view identity, else nobody. A token whose
   payload has no `_id` also identifies nobody.
   */
  function ApiIdentity(env: Env, cookies: map<string, string>, now: Time): (uid: Option<UserId>)
    ensures uid.Some? ==> Truthy(Field(cookies, "accessToken")) && env.accessSecretSet
    ensures uid.Some? ==> Verify(env, AccessDomain, cookies["accessToken"], now).Some?
    ensures uid.Some? ==> uid == env.decode(AccessDomain, cookies["accessToken"]).value.payload.id
    ensures Truthy(Field(cookies, "accessToken")) && env.accessSecretSet
            && Verify(env, AccessDomain, cookies["accessToken"], now).Some? ==>
      uid == Verify(env, AccessDomain, cookies["accessToken"], now).value.payload.id
  {
    var token := Field(cookies, "accessToken");
    if Truthy(token) && env.accessSecretSet then
      match Verify(env, AccessDomain, token.value, now)
      case None => None
      case Some(c) => c.payload.id
    else None
  }

  /** The page and the API agree on who is signed in: whoever the API serves is the user the page shows. */
  lemma ViewAndApiAgree(env: Env, cookies: map<string, string>, now: Time)
    ensures ApiIdentity(env, cookies, now).Some? ==>
      ViewIdentity(env, cookies, now).Some? && ViewIdentity(env, cookies, now).value.id == ApiIdentity(env, cookies, now)
    ensures ViewIdentity(env, cookies, now).None? ==> ApiIdentity(env, cookies, now).None?
  {
  }

  // ---------------------------------------------------------------------
  // The store and the save rule
  // ---------------------------------------------------------------------

  /** A row of the legacy progress log, written beside every saved session. */
  datatype ProgressRecord = ProgressRecord(date: Time, accuracy: int, userId: Option<UserId>, createdAt: Time)

  datatype Store = Store(sessions: seq<SessionRecord>, progress: seq<ProgressRecord>)

  /** The body fields `/api/save-session` reads; `landmarks` is already the serialised text. */
  datatype SaveBody = SaveBody(accuracy: Option<int>, feedback: Option<string>, poseName: Option<string>, landmarks: Option<string>)

  /** `x || 0` on a number: absent and zero both give zero. */
  function OrZero(x: Option<int>): (v: int)
    ensures x.Some? && x.value != 0 ==> v == x.value
    ensures x.None? || x.value == 0 ==> v == 0
  {
    match x
    case None => 0
    case Some(a) => a
  }

  /** `s || fallback` on a string. */
  function OrText(s: Option<string>, fallback: string): (v: string)
    ensures Truthy(s) ==> v == s.value
    ensures !Truthy(s) ==> v == fallback
  {
    if Truthy(s) then s.value else fallback
  }

  function OwnerOf(uid: Option<UserId>): (o: Owner)
    ensures o.Guest? <==> uid.None?
    ensures uid.Some? ==> o == User(uid.value)
  {
    match uid
    case None => Guest
    case Some(id) => User(id)
  }

  /** The document the save handler hands to the schema; `duration` is never passed. */
  function SaveDoc(uid: Option<UserId>, body: SaveBody, now: Time): (doc: SessionDoc)
    ensures doc.owner == OwnerOf(uid)
    ensures doc.accuracy == Some(OrZero(body.accuracy))
    ensures doc.poseName == Some(OrText(body.poseName, DefaultPoseName))
    ensures doc.feedback == Some(OrText(body.feedback, "No feedback available"))
    ensures doc.landmarks == body.landmarks && doc.duration.None? && doc.date == Some(now)
  {
    SessionDoc(OwnerOf(uid), Some(OrText(body.poseName, DefaultPoseName)), Some(OrZero(body.accuracy)),
               Some(OrText(body.feedback, "No feedback available")), body.landmarks, None, Some(now))
  }

  /** The reply of the save handler: the new session's position, or the 500 of the catch block. */
  datatype SaveReply = Saved(sessionId: nat) | SaveFailed

  /**
   `POST /api/save-session`. The session is created first; when the schema
   rejects it the handler answers 500 and neither log changes. Otherwise the
   progress log receives the same accuracy and owner.
   */
  function SaveSession(env: Env, store: Store, cookies: map<string, string>, body: SaveBody, now: Time)
    : (r: (Store, SaveReply))
    ensures var acc := OrZero(body.accuracy);
      r.1.SaveFailed? <==> acc < 0 || acc > 100
    ensures r.1.SaveFailed? ==> r.0 == store
    ensures r.1.Saved? ==>
      && r.1.sessionId == |store.sessions|
      && |r.0.sessions| == |store.sessions| + 1 && r.0.sessions[..|store.sessions|] == store.sessions
      && |r.0.progress| == |store.progress| + 1 && r.0.progress[..|store.progress|] == store.progress
      && r.0.sessions[|store.sessions|].owner == OwnerOf(ApiIdentity(env, cookies, now))
      && r.0.sessions[|store.sessions|].accuracy == OrZero(body.accuracy)
      && r.0.progress[|store.progress|].accuracy == OrZero(body.accuracy)
      && r.0.progress[|store.progress|].userId == ApiIdentity(env, cookies, now)
  {
    var uid := ApiIdentity(env, cookies, now);
    match Create(SaveDoc(uid, body, now), now)
    case Failure(_) => (store, SaveFailed)
    case Success(rec) =>
      var row := ProgressRecord(now, OrZero(body.accuracy), uid, now);
      (Store(store.sessions + [rec], store.progress + [row]), Saved(|store.sessions|))
  }

  /** A saved record carries the save defaults and keeps the schema's invariant. */
  lemma SavedRecordDefaults(env: Env, store: Store, cookies: map<string, string>, body: SaveBody, now: Time)
    requires SaveSession(env, store, cookies, body, now).1.Saved?
    ensures var rec := SaveSession(env, store, cookies, body, now).0.sessions[|store.sessions|];
      && WellFormed(rec)
      && rec.poseName == OrText(body.poseName, DefaultPoseName)
      && rec.feedback == OrText(body.feedback, "No feedback available")
      && rec.landmarks == body.landmarks
      && rec.duration == 0
      && rec.date == now
      && (rec.owner.Guest? <==> ApiIdentity(env, cookies, now).None?)
  {
  }

  /** The two logs stay in step: same length, and the same accuracy and owner at every position. */
  ghost predicate InStep(store: Store) {
    && |store.sessions| == |store.progress|
    && forall k :: 0 <= k < |store.sessions| ==>
         && store.sessions[k].accuracy == store.progress[k].accuracy
         && store.sessions[k].owner == OwnerOf(store.progress[k].userId)
  }

  /** The store invariant: every session well-formed, dates non-decreasing, and the two logs in step. */
  ghost predicate StoreOk(store: Store) {
    AllWellFormed(store.sessions) && Chronological(store.sessions) && InStep(store)
  }

  lemma {:induction false} SavePreservesStore(env: Env, store: Store, cookies: map<string, string>, body: SaveBody, now: Time)
    requires StoreOk(store)
    requires forall k :: 0 <= k < |store.sessions| ==> store.sessions[k].date <= now
    ensures StoreOk(SaveSession(env, store, cookies, body, now).0)
  {
    var (s, reply) := SaveSession(env, store, cookies, body, now);
    if reply.Saved? {
      var n := |store.sessions|;
      SavedRecordDefaults(env, store, cookies, body, now);
      forall k | 0 <= k < |s.sessions|
        ensures WellFormed(s.sessions[k])
      {
        if k < n { assert s.sessions[k] == s.sessions[..n][k]; }
      }
      forall i, j | 0 <= i < j < |s.sessions|
        ensures s.sessions[i].date <= s.sessions[j].date
      {
        assert s.sessions[i] == s.sessions[..n][i];
        if j < n { assert s.sessions[j] == s.sessions[..n][j]; }
      }
      forall k | 0 <= k < |s.sessions|
        ensures s.sessions[k].accuracy == s.progress[k].accuracy
        ensures s.sessions[k].owner == OwnerOf(s.progress[k].userId)
      {
        if k < n {
          assert s.sessions[k] == s.sessions[..n][k];
          assert s.progress[k] == s.progress[..n][k];
        }
      }
    }
  }

  // ---------------------------------------------------------------------
  // Scoped newest-first queries
  // ---------------------------------------------------------------------

  /** Dates never decrease along the log. */
  ghost predicate Chronological(log: seq<SessionRecord>) {
    forall i, j :: 0 <= i < j < |log| ==> log[i].date <= log[j].date
  }

  /** Newest first: dates never increase along a result list. */
  ghost predicate Descending(rs: seq<SessionRecord>) {
    forall i, j :: 0 <= i < j < |rs| ==> rs[i].date >= rs[j].date
  }

  /** The query filter: the caller's own records when identified, every record otherwise. */
  predicate InScope(r: SessionRecord, uid: Option<UserId>) {
    uid.None? || r.owner == User(uid.value)
  }

  /** How many records of the log the scoped query `find(query)` matches. */
  function Count(log: seq<SessionRecord>, uid: Option<UserId>): (c: nat)
    ensures c <= |log|
  {
    if |log| == 0 then 0
    else Count(log[..|log| - 1], uid) + (if InScope(log[|log| - 1], uid) then 1 else 0)
  }

  function Min(a: int, b: int): int {
    if a <= b then a else b
  }

  /**
   `find(scope).sort({date: -1}).limit(n)`: up to `n` in-scope records taken
   from the end of the log backwards. `NewestDescending` and `NewestTopN`
   state why that is the newest-first query.
   */
  function Newest(log: seq<SessionRecord>, uid: Option<UserId>, n: nat): (rs: seq<SessionRecord>)
    ensures |rs| == Min(n, Count(log, uid))
    ensures forall k :: 0 <= k < |rs| ==> InScope(rs[k], uid) && rs[k] in log
    decreases |log|
  {
    if n == 0 || |log| == 0 then []
    else
      var init := log[..|log| - 1];
      var last := log[|log| - 1];
      assert forall r :: r in init ==> r in log;
      if InScope(last, uid) then [last] + Newest(init, uid, n - 1)
      else Newest(init, uid, n)
  }

  /** The query returns no record more often than the log stores it. */
  lemma {:induction false} NewestWithinLog(log: seq<SessionRecord>, uid: Option<UserId>, n: nat)
    ensures multiset(Newest(log, uid, n)) <= multiset(log)
    decreases |log|
  {
    if n > 0 && |log| > 0 {
      var init := log[..|log| - 1];
      var last := log[|log| - 1];
      assert log == init + [last];
      NewestWithinLog(init, uid, if InScope(last, uid) then n - 1 else n);
    }
  }

  /** Every record of the log before position `j` is dated no later than `log[j]`. */
  lemma InitNoNewer(log: seq<SessionRecord>, r: SessionRecord)
    requires Chronological(log) && |log| > 0 && r in log[..|log| - 1]
    ensures r.date <= log[|log| - 1].date
  {
    var i :| 0 <= i < |log| - 1 && log[..|log| - 1][i] == r;
    assert log[i] == r;
  }

  lemma ConsDescending(r: SessionRecord, rs: seq<SessionRecord>)
    requires Descending(rs)
    requires forall k :: 0 <= k < |rs| ==> rs[k].date <= r.date
    ensures Descending([r] + rs)
  {
    var xs := [r] + rs;
    forall i, j | 0 <= i < j < |xs| ensures xs[i].date >= xs[j].date {
      assert xs[j] == rs[j - 1];
      if i > 0 { assert xs[i] == rs[i - 1]; }
    }
  }

  /** On a chronological log the query result is newest first. */
  lemma {:induction false} NewestDescending(log: seq<SessionRecord>, uid: Option<UserId>, n: nat)
    ensures Chronological(log) ==> Descending(Newest(log, uid, n))
    decreases |log|
  {
    if Chronological(log) && n > 0 && |log| > 0 {
      var init := log[..|log| - 1];
      var last := log[|log| - 1];
      ChronologicalInit(log);
      if InScope(last, uid) {
        NewestDescending(init, uid, n - 1);
        DescendingStep(log, uid, n);
      } else {
        NewestDescending(init, uid, n);
        assert Newest(log, uid, n) == Newest(init, uid, n);
      }
    }
  }

  /** Putting the last record in front of the older records' result keeps it newest first. */
  lemma DescendingStep(log: seq<SessionRecord>, uid: Option<UserId>, n: nat)
    requires Chronological(log) && |log| > 0 && n > 0 && InScope(log[|log| - 1], uid)
    requires Descending(Newest(log[..|log| - 1], uid, n - 1))
    ensures Descending(Newest(log, uid, n))
  {
    var rest := Newest(log[..|log| - 1], uid, n - 1);
    RestNoNewer(log, uid, n - 1);
    ConsDescending(log[|log| - 1], rest);
    assert Newest(log, uid, n) == [log[|log| - 1]] + rest;
  }

  lemma ChronologicalInit(log: seq<SessionRecord>)
    requires Chronological(log) && |log| > 0
    ensures Chronological(log[..|log| - 1])
  {
    var init := log[..|log| - 1];
    forall i, j | 0 <= i < j < |init| ensures init[i].date <= init[j].date {
      assert init[i] == log[i] && init[j] == log[j];
    }
  }

  /** Whatever the query returns from the older records is dated no later than the last one. */
  lemma RestNoNewer(log: seq<SessionRecord>, uid: Option<UserId>, m: nat)
    requires Chronological(log) && |log| > 0
    ensures var rest := Newest(log[..|log| - 1], uid, m);
      forall k :: 0 <= k < |rest| ==> rest[k].date <= log[|log| - 1].date
  {
    var rest := Newest(log[..|log| - 1], uid, m);
    forall k | 0 <= k < |rest| ensures rest[k].date <= log[|log| - 1].date {
      InitNoNewer(log, rest[k]);
    }
  }

  /**
   The limit keeps the newest: an in-scope record left out of the result
   means the limit was reached, and no returned record is older than it.
   */
  lemma {:induction false} NewestTopN(log: seq<SessionRecord>, uid: Option<UserId>, n: nat)
    requires Chronological(log)
    ensures var rs := Newest(log, uid, n);
      forall i :: 0 <= i < |log| && InScope(log[i], uid) && log[i] !in rs ==>
        |rs| == n && forall k :: 0 <= k < |rs| ==> rs[k].date >= log[i].date
    decreases |log|
  {
    if n > 0 && |log| > 0 {
      var init := log[..|log| - 1];
      var last := log[|log| - 1];
      var rs := Newest(log, uid, n);
      ChronologicalInit(log);
      var m := if InScope(last, uid) then n - 1 else n;
      NewestTopN(init, uid, m);
      var rest := Newest(init, uid, m);
      forall i | 0 <= i < |log| && InScope(log[i], uid) && log[i] !in rs
        ensures |rs| == n && forall k :: 0 <= k < |rs| ==> rs[k].date >= log[i].date
      {
        assert i < |log| - 1;
        assert log[i] == init[i];
        assert log[i] !in rest;
        InitNoNewer(log, log[i]);
      }
    }
  }

  /** A shorter query is a prefix of a longer one. */
  lemma {:induction false} NewestPrefix(log: seq<SessionRecord>, uid: Option<UserId>, m: nat, n: nat)
    requires m <= n
    ensures |Newest(log, uid, m)| <= |Newest(log, uid, n)|
    ensures Newest(log, uid, n)[..|Newest(log, uid, m)|] == Newest(log, uid, m)
    decreases |log|
  {
    if m == 0 || |log| == 0 {
    } else {
      var init := log[..|log| - 1];
      NewestPrefix(init, uid, if InScope(log[|log| - 1], uid) then m - 1 else m,
                   if InScope(log[|log| - 1], uid) then n - 1 else n);
    }
  }

  /** With no limit in the way, the scoped query returns every in-scope record. */
  lemma {:induction false} NewestAll(log: seq<SessionRecord>, uid: Option<UserId>, n: nat, r: SessionRecord)
    requires Count(log, uid) <= n
    requires r in log && InScope(r, uid)
    ensures r in Newest(log, uid, n)
    decreases |log|
  {
    CountPositive(log, uid, r);
    var init := log[..|log| - 1];
    var last := log[|log| - 1];
    var i :| 0 <= i < |log| && log[i] == r;
    if i < |log| - 1 {
      assert init[i] == r;
      NewestAll(init, uid, if InScope(last, uid) then n - 1 else n, r);
    }
  }

  /** The count is zero exactly when nothing is in scope, and the whole log exactly when everything is. */
  lemma {:induction false} CountExtremes(log: seq<SessionRecord>, uid: Option<UserId>)
    ensures Count(log, uid) == 0 <==> forall i :: 0 <= i < |log| ==> !InScope(log[i], uid)
    ensures Count(log, uid) == |log| <==> forall i :: 0 <= i < |log| ==> InScope(log[i], uid)
    decreases |log|
  {
    if |log| > 0 {
      var init := log[..|log| - 1];
      CountExtremes(init, uid);
      assert forall i :: 0 <= i < |init| ==> init[i] == log[i];
    }
  }

  /** An in-scope record in the log is counted. */
  lemma {:induction false} CountPositive(log: seq<SessionRecord>, uid: Option<UserId>, r: SessionRecord)
    requires r in log && InScope(r, uid)
    ensures Count(log, uid) > 0
    decreases |log|
  {
    var init := log[..|log| - 1];
    var i :| 0 <= i < |log| && log[i] == r;
    if i < |log| - 1 {
      assert init[i] == r;
      CountPositive(init, uid, r);
    }
  }

  // ---------------------------------------------------------------------
  // Aggregates
  // ---------------------------------------------------------------------

  function Sum(rs: seq<SessionRecord>): int {
    if |rs| == 0 then 0 else Sum(rs[..|rs| - 1]) + rs[|rs| - 1].accuracy
  }

  /**
   `Math.round(sum / n)` for `n > 0`: the integer nearest to the mean, halves
   rounded up. Computed exactly as `(2*sum + n) / (2*n)`.
   */
  function RoundedMean(sum: int, n: nat): (m: int)
    requires n > 0
    ensures 2 * n * m <= 2 * sum + n < 2 * n * (m + 1)
  {
    var d := 2 * n;
    var q := (2 * sum + n) / d;
    assert (2 * sum + n) == d * q + (2 * sum + n) % d;
    assert d * q == 2 * n * q;
    assert d * (q + 1) == 2 * n * (q + 1);
    q
  }

  /** The largest accuracy of a non-empty list. */
  function MaxAccuracy(rs: seq<SessionRecord>): (m: int)
    requires |rs| > 0
    ensures exists k :: 0 <= k < |rs| && rs[k].accuracy == m
    ensures forall k :: 0 <= k < |rs| ==> rs[k].accuracy <= m
  {
    if |rs| == 1 then rs[0].accuracy
    else
      var m := MaxAccuracy(rs[..|rs| - 1]);
      assert forall k :: 0 <= k < |rs| - 1 ==> rs[k] == rs[..|rs| - 1][k];
      if rs[|rs| - 1].accuracy > m then rs[|rs| - 1].accuracy else m
  }

  /** The mean of a non-empty list, rounded as `Math.round` does. */
  function MeanAccuracy(rs: seq<SessionRecord>): int
    requires |rs| > 0
  {
    RoundedMean(Sum(rs), |rs|)
  }

  datatype HistoryStats = HistoryStats(totalSessions: nat, avgAccuracy: int, bestAccuracy: int, recentAccuracy: int)

  /** The `stats` block of `/api/session-history` over the returned records. */
  function Stats(rs: seq<SessionRecord>): (s: HistoryStats)
    ensures s.totalSessions == |rs|
    ensures |rs| == 0 ==> s == HistoryStats(0, 0, 0, 0)
    ensures |rs| > 0 ==>
      && 2 * |rs| * s.avgAccuracy <= 2 * Sum(rs) + |rs| < 2 * |rs| * (s.avgAccuracy + 1)
      && (forall k :: 0 <= k < |rs| ==> rs[k].accuracy <= s.bestAccuracy)
      && (exists k :: 0 <= k < |rs| && rs[k].accuracy == s.bestAccuracy)
      && s.recentAccuracy == rs[0].accuracy
  {
    if |rs| == 0 then HistoryStats(0, 0, 0, 0)
    else HistoryStats(|rs|, MeanAccuracy(rs), MaxAccuracy(rs), rs[0].accuracy)
  }

  datatype HistoryReply = HistoryReply(sessions: seq<SessionRecord>, stats: HistoryStats)

  /** `GET /api/session-history`: the ten newest records in scope and their stats. */
  function SessionHistory(env: Env, store: Store, cookies: map<string, string>, now: Time): (h: HistoryReply)
    ensures var uid := ApiIdentity(env, cookies, now);
      && |h.sessions| == Min(10, Count(store.sessions, uid))
      && (forall k :: 0 <= k < |h.sessions| ==> InScope(h.sessions[k], uid))
      && (Chronological(store.sessions) ==> Descending(h.sessions))
      && h.stats.totalSessions == |h.sessions|
    ensures h.sessions == Newest(store.sessions, ApiIdentity(env, cookies, now), 10)
    ensures h.stats == Stats(h.sessions)
  {
    NewestDescending(store.sessions, ApiIdentity(env, cookies, now), 10);
    var rs := Newest(store.sessions, ApiIdentity(env, cookies, now), 10);
    HistoryReply(rs, Stats(rs))
  }

  datatype AccuracyStats = AccuracyStats(todayAverage: int, todayCount: nat, recentSessions: seq<SessionRecord>, lastAccuracy: int)

  /** Every in-scope record dated at or after `midnight`, in log order. */
  function Today(log: seq<SessionRecord>, uid: Option<UserId>, midnight: Time): (rs: seq<SessionRecord>)
    ensures forall k :: 0 <= k < |rs| ==> InScope(rs[k], uid) && rs[k].date >= midnight && rs[k] in log
    ensures forall r :: r in log && InScope(r, uid) && r.date >= midnight ==> r in rs
  {
    if |log| == 0 then []
    else
      var rest := Today(log[..|log| - 1], uid, midnight);
      var last := log[|log| - 1];
      assert forall r :: r in log ==> r in log[..|log| - 1] || r == last;
      if InScope(last, uid) && last.date >= midnight then rest + [last] else rest
  }

  /** Today's list holds each in-scope record dated from midnight on as often as the log does, and nothing else. */
  lemma {:induction false} TodayCounts(log: seq<SessionRecord>, uid: Option<UserId>, midnight: Time)
    ensures forall r ::
              multiset(Today(log, uid, midnight))[r] == (if InScope(r, uid) && r.date >= midnight then multiset(log)[r] else 0)
    decreases |log|
  {
    if |log| > 0 {
      var init := log[..|log| - 1];
      assert log == init + [log[|log| - 1]];
      TodayCounts(init, uid, midnight);
    }
  }

  /**
   `GET /api/accuracy-stats`, with the local midnight passed in: today's
   count and rounded mean over the whole scope, the first three of the five
   newest records, and the newest record's accuracy.
   */
  function AccuracyStatsOf(log: seq<SessionRecord>, uid: Option<UserId>, midnight: Time): (a: AccuracyStats)
    ensures a.todayCount == |Today(log, uid, midnight)|
    ensures a.todayCount == 0 ==> a.todayAverage == 0
    ensures a.todayCount > 0 ==> a.todayAverage == MeanAccuracy(Today(log, uid, midnight))
    ensures |a.recentSessions| == Min(3, Count(log, uid))
    ensures Count(log, uid) == 0 ==> a.lastAccuracy == 0
    ensures Count(log, uid) > 0 ==> a.lastAccuracy == Newest(log, uid, 1)[0].accuracy
  {
    var recent := Newest(log, uid, 5);
    var today := Today(log, uid, midnight);
    NewestPrefix(log, uid, 1, 5);
    AccuracyStats(
      if |today| > 0 then MeanAccuracy(today) else 0,
      |today|,
      recent[..Min(3, |recent|)],
      if |recent| > 0 then recent[0].accuracy else 0)
  }

  function AccuracyStatsEndpoint(env: Env, store: Store, cookies: map<string, string>, now: Time, midnight: Time)
    : (a: AccuracyStats)
    ensures a == AccuracyStatsOf(store.sessions, ApiIdentity(env, cookies, now), midnight)
    ensures Chronological(store.sessions) ==> Descending(a.recentSessions)
  {
    var a := AccuracyStatsOf(store.sessions, ApiIdentity(env, cookies, now), midnight);
    NewestPrefix(store.sessions, ApiIdentity(env, cookies, now), 3, 5);
    NewestDescending(store.sessions, ApiIdentity(env, cookies, now), 3);
    a
  }

  /** `recentSessions` is the three newest records in scope, not the three best ones. */
  lemma RecentAreTheThreeNewest(log: seq<SessionRecord>, uid: Option<UserId>, midnight: Time)
    ensures AccuracyStatsOf(log, uid, midnight).recentSessions == Newest(log, uid, 3)
  {
    NewestPrefix(log, uid, 3, 5);
  }

  /** The rounded mean of values in [lo, hi] lies in [lo, hi]. */
  lemma {:induction false} RoundedMeanBounds(sum: int, n: nat, lo: int, hi: int)
    requires n > 0 && n * lo <= sum <= n * hi
    ensures lo <= RoundedMean(sum, n) <= hi
  {
    var m := RoundedMean(sum, n);
    assert 2 * n * lo < 2 * n * (m + 1) by {
      assert 2 * n * lo <= 2 * sum;
    }
    assert 2 * n * m < 2 * n * (hi + 1) by {
      assert 2 * sum + n <= 2 * n * hi + n;
      assert 2 * n * hi + n < 2 * n * (hi + 1);
    }
    MulLessCancel(2 * n, lo, m + 1);
    MulLessCancel(2 * n, m, hi + 1);
  }

  lemma MulLessCancel(c: nat, a: int, b: int)
    requires c > 0 && c * a < c * b
    ensures a < b
  {
  }

  lemma {:induction false} SumBounds(rs: seq<SessionRecord>)
    requires AllWellFormed(rs)
    ensures 0 <= Sum(rs) <= 100 * |rs|
  {
    if |rs| > 0 {
      var init := rs[..|rs| - 1];
      assert AllWellFormed(init) by {
        forall k | 0 <= k < |init| ensures WellFormed(init[k]) {
          assert init[k] == rs[k];
        }
      }
      SumBounds(init);
    }
  }

  /** Over well-formed records every history statistic stays in [0, 100], and the mean never exceeds the best. */
  lemma {:induction false} StatsBounded(rs: seq<SessionRecord>)
    requires AllWellFormed(rs)
    ensures var s := Stats(rs);
      0 <= s.avgAccuracy <= s.bestAccuracy <= 100 && 0 <= s.recentAccuracy <= 100
  {
    if |rs| > 0 {
      var s := Stats(rs);
      SumBounds(rs);
      SumAtMost(rs, s.bestAccuracy);
      RoundedMeanBounds(Sum(rs), |rs|, 0, s.bestAccuracy);
    }
  }

  lemma {:induction false} SumAtMost(rs: seq<SessionRecord>, hi: int)
    requires forall k :: 0 <= k < |rs| ==> rs[k].accuracy <= hi
    ensures Sum(rs) <= |rs| * hi
  {
    if |rs| > 0 {
      var init := rs[..|rs| - 1];
      assert forall k :: 0 <= k < |init| ==> init[k] == rs[k];
      SumAtMost(init, hi);
    }
  }

  function Rec(acc: int, date: Time): SessionRecord {
    SessionRecord(Guest, DefaultPoseName, acc, "", None, 0, date, date, date)
  }

  /** A worked history: scores 50, 70 and 90 saved in that order give mean 70, best 90, most recent 90. */
  lemma HistoryExample()
    ensures var log := [Rec(50, 1), Rec(70, 2), Rec(90, 3)];
      Stats(Newest(log, None, 10)) == HistoryStats(3, 70, 90, 90)
  {
    ExampleNewest();
    ExampleStats();
  }

  lemma ExampleNewest()
    ensures Newest([Rec(50, 1), Rec(70, 2), Rec(90, 3)], None, 10) == [Rec(90, 3), Rec(70, 2), Rec(50, 1)]
  {
    var log := [Rec(50, 1), Rec(70, 2), Rec(90, 3)];
    var l2 := log[..2];
    var l1 := l2[..1];
    assert l2 == [Rec(50, 1), Rec(70, 2)];
    assert l1 == [Rec(50, 1)];
    assert l1[..0] == [];
    assert Newest(l1, None, 8) == [Rec(50, 1)];
    assert Newest(l2, None, 9) == [Rec(70, 2)] + [Rec(50, 1)];
  }

  lemma ExampleStats()
    ensures Stats([Rec(90, 3), Rec(70, 2), Rec(50, 1)]) == HistoryStats(3, 70, 90, 90)
  {
    var rs := [Rec(90, 3), Rec(70, 2), Rec(50, 1)];
    ExampleSum();
    var st := Stats(rs);
    var k :| 0 <= k < 3 && rs[k].accuracy == st.bestAccuracy;
    assert rs[0].accuracy <= st.bestAccuracy;
    assert st.bestAccuracy == 90;
    assert 6 * st.avgAccuracy <= 423 < 6 * (st.avgAccuracy + 1);
  }

  lemma ExampleSum()
    ensures Sum([Rec(90, 3), Rec(70, 2), Rec(50, 1)]) == 210
  {
    var rs := [Rec(90, 3), Rec(70, 2), Rec(50, 1)];
    assert rs[..2] == [Rec(90, 3), Rec(70, 2)];
    assert rs[..2][..1] == [Rec(90, 3)];
    assert rs[..2][..1][..0] == [];
    assert Sum(rs[..2][..1]) == 90;
    assert Sum(rs[..2]) == 160;
  }

  /** Math.round rounds halves up: the mean of 1 and 2 is shown as 2. */
  lemma RoundHalfUpExample()
    ensures RoundedMean(3, 2) == 2 && RoundedMean(4, 3) == 1 && RoundedMean(5, 3) == 2
  {
  }
}
