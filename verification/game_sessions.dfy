/** The game-session service: saving a finished run (score fallback, one
    usage record per known power-up, high-score update and flag) and the
    conversion of a stored session into its DTO.

    The service is not transactional: every repository save stands on its
    own, so an exception part-way leaves the earlier saves in place. */
module GameSessions {
  import opened Common
  import opened Entities
  import opened Accounts
  import opened LocalDateTimes

  /** One power-up activation as the client reports it; every field may be
      missing, and the time is text that the service parses. */
  datatype UsageReport = UsageReport(powerUpId: Option<nat>, duration: Option<int>, activatedAt: Option<string>)

  /** The submitted body; every field may be missing. */
  datatype ScoreReport = ScoreReport(
    score: Option<int>,
    coinsCollected: Option<int>,
    distanceTraveled: Option<int>,
    powerUps: Option<seq<UsageReport>>)

  /** A stored usage record, linked to its session, with the parsed time;
      the duration column does not admit null. */
  datatype SessionPowerUp = SessionPowerUp(sessionId: nat, powerUp: PowerUp, duration: int, activatedAt: DateTime)

  /** A stored session; `powerUps` is the session's own collection of usage
      records, null for a session that was just constructed. */
  datatype GameSession = GameSession(
    id: nat,
    user: User,
    score: int,
    coinsCollected: Option<int>,
    distanceTraveled: Option<int>,
    powerUps: Option<seq<SessionPowerUp>>)

  datatype UsageDTO = UsageDTO(powerUpId: nat, name: string, description: string, duration: int, activatedAt: string)

  datatype GameSessionDTO = GameSessionDTO(
    id: nat,
    userId: nat,
    username: string,
    score: int,
    coinsCollected: Option<int>,
    distanceTraveled: Option<int>,
    powerUps: Option<seq<UsageDTO>>,
    isHighScore: bool)

  /** The session and usage tables. */
  datatype SessionStore = SessionStore(sessions: seq<GameSession>, nextSessionId: nat, usages: seq<SessionPowerUp>)

  /** The stored score: the reported score, else the distance, else 0. */
  function FallbackScore(report: ScoreReport): (score: int)
    ensures report.score.Some? ==> score == report.score.value
    ensures report.score.None? && report.distanceTraveled.Some? ==> score == report.distanceTraveled.value
    ensures report.score.None? && report.distanceTraveled.None? ==> score == 0
  {
    match report.score
    case Some(s) => s
    case None => report.distanceTraveled.GetOr(0)
  }

  /** A usage record as the DTO shows it; the time is printed back. */
  function ToUsageDTO(u: SessionPowerUp): UsageDTO {
    UsageDTO(u.powerUp.id, u.powerUp.name, u.powerUp.description, u.duration, Show(u.activatedAt))
  }

  /** `convertToDTO`: the session's fields, its usage records in order, and
      a flag that compares the score with the owner's current high score. */
  function ConvertToDTO(session: GameSession, owner: User): (d: GameSessionDTO)
    ensures d.id == session.id && d.userId == owner.id && d.username == owner.username
    ensures d.score == session.score
    ensures d.coinsCollected == session.coinsCollected && d.distanceTraveled == session.distanceTraveled
    ensures d.isHighScore <==> session.score == owner.highestScore
    ensures session.powerUps.None? <==> d.powerUps.None?
    ensures session.powerUps.Some? ==>
      && |d.powerUps.value| == |session.powerUps.value|
      && forall i :: 0 <= i < |d.powerUps.value| ==>
           var rec := session.powerUps.value[i];
           && d.powerUps.value[i].powerUpId == rec.powerUp.id
           && d.powerUps.value[i].name == rec.powerUp.name
           && d.powerUps.value[i].description == rec.powerUp.description
           && d.powerUps.value[i].duration == rec.duration
           && d.powerUps.value[i].activatedAt == Show(rec.activatedAt)
  {
    var usages := match session.powerUps
      case None => None
      case Some(list) => Some(seq(|list|, i requires 0 <= i < |list| => ToUsageDTO(list[i])));
    GameSessionDTO(session.id, owner.id, owner.username, session.score, session.coinsCollected,
                   session.distanceTraveled, usages, session.score == owner.highestScore)
  }

  /** The times a DTO shows parse back to the instants stored. */
  lemma ConvertedTimesParseBack(session: GameSession, owner: User)
    requires session.powerUps.Some?
    requires forall k :: 0 <= k < |session.powerUps.value| ==> Valid(session.powerUps.value[k].activatedAt)
    ensures var d := ConvertToDTO(session, owner);
      forall i :: 0 <= i < |d.powerUps.value| ==>
        Parse(d.powerUps.value[i].activatedAt) == Some(session.powerUps.value[i].activatedAt)
  {
    var d := ConvertToDTO(session, owner);
    forall i | 0 <= i < |d.powerUps.value|
      ensures Parse(d.powerUps.value[i].activatedAt) == Some(session.powerUps.value[i].activatedAt)
    {
      ParseShow(session.powerUps.value[i].activatedAt);
    }
  }

  /** The parse of a reported time: a missing one throws as an unparsable
      one does. */
  function ParseReported(text: Option<string>): (t: Option<DateTime>)
    ensures text.None? ==> t.None?
    ensures text.Some? ==> t == Parse(text.value)
  {
    match text
    case None => None
    case Some(s) => Parse(s)
  }

  /** A report whose power-up id names a stored power-up. */
  predicate Known(catalogue: map<nat, PowerUp>, u: UsageReport) {
    u.powerUpId.Some? && u.powerUpId.value in catalogue
  }

  /** What one turn of the usage loop throws: the lookup of a null id, then
      (for a known power-up only) the parse of the time, then the insert of a
      null duration into a column that does not admit null. */
  datatype LoopFailure = NullPowerUpId | UnparsableTime(text: Option<string>) | NullDuration

  function FailureOf(catalogue: map<nat, PowerUp>, u: UsageReport): (f: Option<LoopFailure>)
    ensures u.powerUpId.None? ==> f == Some(NullPowerUpId)
    ensures u.powerUpId.Some? && !Known(catalogue, u) ==> f.None?
    ensures Known(catalogue, u) && ParseReported(u.activatedAt).None? ==> f == Some(UnparsableTime(u.activatedAt))
    ensures Known(catalogue, u) && ParseReported(u.activatedAt).Some? ==>
      (f.Some? <==> u.duration.None?) && (f.Some? ==> f == Some(NullDuration))
  {
    if u.powerUpId.None? then Some(NullPowerUpId)
    else if u.powerUpId.value !in catalogue then None
    else if ParseReported(u.activatedAt).None? then Some(UnparsableTime(u.activatedAt))
    else if u.duration.None? then Some(NullDuration)
    else None
  }

  /** Where the usage loop got to: the records it saved, and the report that
      made it throw, when one did. */
  datatype Recording = Recording(records: seq<SessionPowerUp>, failedAt: Option<UsageReport>)

  /** The usage loop: a report with an unknown power-up id is skipped, one
      with a known id is saved with its duration and parsed time, and the
      first report that throws stops the loop after the records saved so far. */
  function Recorded(sessionId: nat, catalogue: map<nat, PowerUp>, reports: seq<UsageReport>): (r: Recording)
    ensures |r.records| <= |reports|
    ensures forall k :: 0 <= k < |r.records| ==>
      r.records[k].sessionId == sessionId && r.records[k].powerUp in catalogue.Values && Valid(r.records[k].activatedAt)
    ensures r.failedAt.None? <==> forall i :: 0 <= i < |reports| ==> FailureOf(catalogue, reports[i]).None?
    ensures r.failedAt.Some? ==> r.failedAt.value in reports && FailureOf(catalogue, r.failedAt.value).Some?
    ensures (forall i :: 0 <= i < |reports| ==> reports[i].powerUpId.Some? && !Known(catalogue, reports[i])) ==>
      r == Recording([], None)
  {
    if |reports| == 0 then Recording([], None)
    else
      assert forall i :: 1 <= i < |reports| ==> reports[i] == reports[1..][i - 1];
      RecordStep(sessionId, catalogue, reports[0], Recorded(sessionId, catalogue, reports[1..]))
  }

  /** The record a known, non-failing report is saved as. */
  function RecordOf(sessionId: nat, catalogue: map<nat, PowerUp>, u: UsageReport): SessionPowerUp
    requires Known(catalogue, u) && FailureOf(catalogue, u).None?
  {
    SessionPowerUp(sessionId, catalogue[u.powerUpId.value], u.duration.value, ParseReported(u.activatedAt).value)
  }

  /** One turn of the loop on report `u`, in front of what the rest of the
      loop does. */
  function RecordStep(sessionId: nat, catalogue: map<nat, PowerUp>, u: UsageReport, rest: Recording): Recording {
    if FailureOf(catalogue, u).Some? then Recording([], Some(u))
    else if !Known(catalogue, u) then rest
    else Recording([RecordOf(sessionId, catalogue, u)] + rest.records, rest.failedAt)
  }

  /** Running the loop on one list after another: the second part runs only
      when the first did not throw. */
  function Then(first: Recording, second: Recording): Recording {
    if first.failedAt.Some? then first else Recording(first.records + second.records, second.failedAt)
  }

  lemma StepThen(sessionId: nat, catalogue: map<nat, PowerUp>, u: UsageReport, first: Recording, second: Recording)
    ensures RecordStep(sessionId, catalogue, u, Then(first, second)) == Then(RecordStep(sessionId, catalogue, u, first), second)
  {
    if FailureOf(catalogue, u).None? && Known(catalogue, u) && first.failedAt.None? {
      var head := [RecordOf(sessionId, catalogue, u)];
      assert head + (first.records + second.records) == (head + first.records) + second.records;
    }
  }

  /** One report on its own: a null id throws; an unknown id is skipped; a
      known id throws on a missing or unparsable time, then on a missing
      duration, and is otherwise recorded with the stored power-up, its
      duration and the parsed time. */
  lemma RecordedOne(sessionId: nat, catalogue: map<nat, PowerUp>, u: UsageReport)
    ensures var r := Recorded(sessionId, catalogue, [u]);
      && (u.powerUpId.None? ==> r == Recording([], Some(u)))
      && (u.powerUpId.Some? && u.powerUpId.value !in catalogue ==> r == Recording([], None))
      && (Known(catalogue, u) && (ParseReported(u.activatedAt).None? || u.duration.None?) ==> r == Recording([], Some(u)))
      && (Known(catalogue, u) && ParseReported(u.activatedAt).Some? && u.duration.Some? ==>
            r == Recording([SessionPowerUp(sessionId, catalogue[u.powerUpId.value], u.duration.value,
                                           ParseReported(u.activatedAt).value)], None))
  {
    assert [u][1..] == [];
  }

  /** The loop runs report by report: a list is recorded as its first part
      and then, unless that part already threw, as its second. With
      `RecordedOne`, this fixes the records for every report list. */
  lemma {:induction false} RecordedAppend(sessionId: nat, catalogue: map<nat, PowerUp>, a: seq<UsageReport>, b: seq<UsageReport>)
    ensures Recorded(sessionId, catalogue, a + b) == Then(Recorded(sessionId, catalogue, a), Recorded(sessionId, catalogue, b))
  {
    if |a| == 0 {
      assert a + b == b;
    } else {
      var u, tail := a[0], a[1..];
      assert (a + b)[0] == u;
      assert (a + b)[1..] == tail + b;
      calc {
        Recorded(sessionId, catalogue, a + b);
        RecordStep(sessionId, catalogue, u, Recorded(sessionId, catalogue, tail + b));
        { RecordedAppend(sessionId, catalogue, tail, b); }
        RecordStep(sessionId, catalogue, u, Then(Recorded(sessionId, catalogue, tail), Recorded(sessionId, catalogue, b)));
        { StepThen(sessionId, catalogue, u, Recorded(sessionId, catalogue, tail), Recorded(sessionId, catalogue, b)); }
        Then(RecordStep(sessionId, catalogue, u, Recorded(sessionId, catalogue, tail)), Recorded(sessionId, catalogue, b));
        Then(Recorded(sessionId, catalogue, a), Recorded(sessionId, catalogue, b));
      }
    }
  }

  /** How many reported usages name a known power-up. */
  function CountKnown(catalogue: map<nat, PowerUp>, reports: seq<UsageReport>): nat {
    if |reports| == 0 then 0
    else (if Known(catalogue, reports[0]) then 1 else 0) + CountKnown(catalogue, reports[1..])
  }

  /** When the loop runs to the end, exactly one record per known usage. */
  lemma {:induction false} RecordedCountsKnown(sessionId: nat, catalogue: map<nat, PowerUp>, reports: seq<UsageReport>)
    requires Recorded(sessionId, catalogue, reports).failedAt.None?
    ensures |Recorded(sessionId, catalogue, reports).records| == CountKnown(catalogue, reports)
  {
    if |reports| > 0 {
      RecordedCountsKnown(sessionId, catalogue, reports[1..]);
    }
  }

  /** What `saveGameSession` throws: the owner lookup's exception, or the
      exception of a turn of the usage loop. */
  datatype SaveFailure = OwnerLookup(failure: Failure) | UsageFailure(cause: LoopFailure)

  datatype SaveResult = Saved(dto: GameSessionDTO) | SaveThrew(failure: SaveFailure)

  datatype SaveOutcome = SaveOutcome(result: SaveResult, users: UserRepo, store: SessionStore)

  /** The usage loop of a report: nothing when the list is null. */
  function RecordingOf(sessionId: nat, catalogue: map<nat, PowerUp>, report: ScoreReport): Recording {
    if report.powerUps.Some? then Recorded(sessionId, catalogue, report.powerUps.value) else Recording([], None)
  }

  /** `saveGameSession`. The owner lookup may throw before anything is
      written; otherwise the session is stored, then the usage records, then
      the high score is raised on a strict improvement. A usage that throws
      (null id, missing or unparsable time, null duration) does so after the
      session and the earlier records are stored and before the high score
      is looked at. The flag in the reply is the
      improvement test, overriding the one `convertToDTO` computes. The new
      session's own usage collection is not loaded, so the reply lists none. */
  function SaveGameSession(users: UserRepo, catalogue: map<nat, PowerUp>, store: SessionStore,
                           userId: nat, report: ScoreReport): (r: SaveOutcome)
    ensures !HasId(users.users, userId) ==>
      r == SaveOutcome(SaveThrew(OwnerLookup(UserNotFoundById(userId))), users, store)
    ensures HasId(users.users, userId) ==>
      var user := users.users[FindById(users.users, userId)];
      var score := FallbackScore(report);
      var rec := RecordingOf(store.nextSessionId, catalogue, report);
      && r.store.sessions == store.sessions
           + [GameSession(store.nextSessionId, user, score, report.coinsCollected, report.distanceTraveled, None)]
      && r.store.nextSessionId == store.nextSessionId + 1
      && r.store.usages == store.usages + rec.records
      && (rec.failedAt.Some? ==>
            && FailureOf(catalogue, rec.failedAt.value).Some?
            && r.result == SaveThrew(UsageFailure(FailureOf(catalogue, rec.failedAt.value).value))
            && r.users == users)
      && (rec.failedAt.None? ==>
            && r.result.Saved?
            && r.result.dto.score == score
            && r.result.dto.userId == userId
            && r.result.dto.powerUps.None?
            && (r.result.dto.isHighScore <==> score > user.highestScore))
  {
    match GetEntityById(users.users, userId)
    case Thrown(e) => SaveOutcome(SaveThrew(OwnerLookup(e)), users, store)
    case Ok(user) =>
      var score := FallbackScore(report);
      var session := GameSession(store.nextSessionId, user, score, report.coinsCollected, report.distanceTraveled, None);
      var rec := RecordingOf(session.id, catalogue, report);
      var store' := SessionStore(store.sessions + [session], store.nextSessionId + 1, store.usages + rec.records);
      if rec.failedAt.Some? then
        var failure := FailureOf(catalogue, rec.failedAt.value);
        if failure.Some? then SaveOutcome(SaveThrew(UsageFailure(failure.value)), users, store')
        else assert false; SaveOutcome(SaveThrew(UsageFailure(NullPowerUpId)), users, store')
      else
        var isHighScore := score > user.highestScore;
        var users' := if isHighScore then UpdateHighScore(users, userId, score).repo else users;
        var dto := ConvertToDTO(session, user).(isHighScore := isHighScore);
        SaveOutcome(Saved(dto), users', store')
  }

  /** The only user field a save can change is the owner's high score: it
      ends as the larger of the old one and the stored score when the save
      completes, and is untouched when a usage time throws. */
  lemma SaveOnlyTouchesHighScore(users: UserRepo, catalogue: map<nat, PowerUp>, store: SessionStore,
                                 userId: nat, report: ScoreReport)
    requires HasId(users.users, userId)
    ensures var r := SaveGameSession(users, catalogue, store, userId, report);
      var k := FindById(users.users, userId);
      var old_ := users.users[k].highestScore;
      var score := FallbackScore(report);
      && r.users.nextId == users.nextId
      && |r.users.users| == |users.users|
      && (forall j :: 0 <= j < |users.users| ==>
            r.users.users[j] == users.users[j].(highestScore := r.users.users[j].highestScore))
      && (forall j :: 0 <= j < |users.users| && j != k ==> r.users.users[j] == users.users[j])
      && (r.result.Saved? ==> r.users.users[k].highestScore == (if score > old_ then score else old_))
      && (r.result.SaveThrew? ==> r.users == users)
  {
  }

  /** A null usage list records nothing; a list of only unknown ids records
      nothing either, and the save completes. */
  lemma SaveWithoutKnownUsagesRecordsNothing(users: UserRepo, catalogue: map<nat, PowerUp>, store: SessionStore,
                                             userId: nat, report: ScoreReport)
    requires HasId(users.users, userId)
    requires report.powerUps.Some? ==>
      forall i :: 0 <= i < |report.powerUps.value| ==>
        report.powerUps.value[i].powerUpId.Some? && !Known(catalogue, report.powerUps.value[i])
    ensures var r := SaveGameSession(users, catalogue, store, userId, report);
      r.store.usages == store.usages && r.result.Saved?
  {
  }

  /** A usage time with a zone suffix, as JavaScript's `toISOString` writes
      it, makes the save throw: the session stays stored, but a record-
      breaking score is not written to the owner. */
  lemma ZonedTimeStoresSessionButNotHighScore(users: UserRepo, catalogue: map<nat, PowerUp>, store: SessionStore,
                                              userId: nat, report: ScoreReport, u: UsageReport, t: DateTime)
    requires HasId(users.users, userId)
    requires Valid(t) && Known(catalogue, u) && u.activatedAt == Some(Show(t) + "Z")
    requires report.powerUps == Some([u])
    ensures var r := SaveGameSession(users, catalogue, store, userId, report);
      && r.result == SaveThrew(UsageFailure(UnparsableTime(u.activatedAt)))
      && |r.store.sessions| == |store.sessions| + 1
      && r.store.sessions[|store.sessions|].score == FallbackScore(report)
      && r.store.usages == store.usages
      && r.users == users
  {
    ZoneSuffixIsRejected(t);
    RecordedOne(store.nextSessionId, catalogue, u);
  }

  /** A known power-up reported without a duration makes the save throw at
      the insert of its record: the session stays stored, no record is
      added, and the owner's high score is not raised. */
  lemma NullDurationStoresSessionButNotHighScore(users: UserRepo, catalogue: map<nat, PowerUp>, store: SessionStore,
                                                 userId: nat, report: ScoreReport, u: UsageReport)
    requires HasId(users.users, userId)
    requires Known(catalogue, u) && ParseReported(u.activatedAt).Some? && u.duration.None?
    requires report.powerUps == Some([u])
    ensures var r := SaveGameSession(users, catalogue, store, userId, report);
      && r.result == SaveThrew(UsageFailure(NullDuration))
      && |r.store.sessions| == |store.sessions| + 1
      && r.store.usages == store.usages
      && r.users == users
  {
    RecordedOne(store.nextSessionId, catalogue, u);
  }

  /** A usage with a null power-up id makes the save throw at the lookup,
      after the records of the usages before it are stored. */
  lemma NullIdStopsAfterEarlierRecords(users: UserRepo, catalogue: map<nat, PowerUp>, store: SessionStore,
                                       userId: nat, report: ScoreReport, before: seq<UsageReport>, u: UsageReport,
                                       after: seq<UsageReport>)
    requires HasId(users.users, userId)
    requires u.powerUpId.None?
    requires forall i :: 0 <= i < |before| ==> FailureOf(catalogue, before[i]).None?
    requires report.powerUps == Some(before + [u] + after)
    ensures var r := SaveGameSession(users, catalogue, store, userId, report);
      && r.result == SaveThrew(UsageFailure(NullPowerUpId))
      && r.store.usages == store.usages + Recorded(store.nextSessionId, catalogue, before).records
      && r.users == users
  {
    var sid := store.nextSessionId;
    RecordedAppend(sid, catalogue, before + [u], after);
    RecordedAppend(sid, catalogue, before, [u]);
    RecordedOne(sid, catalogue, u);
  }
}
