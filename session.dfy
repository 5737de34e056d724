/** Session-expiry arithmetic (src/lib/security/session.ts).  Times are
    milliseconds since the epoch; `now` is a parameter. */
module Session {
  import opened Text

  datatype SessionConfig = SessionConfig(maxDuration: int, inactivityTimeout: int)

  /** The presets of `SESSION_CONFIGS`. */
  const CANDIDATE := SessionConfig(2 * 60 * 60 * 1000, 10 * 60 * 1000)
  const RECRUITER := SessionConfig(8 * 60 * 60 * 1000, 30 * 60 * 1000)
  const ADMIN := SessionConfig(12 * 60 * 60 * 1000, 60 * 60 * 1000)

  datatype SessionData = SessionData(startTime: int, lastActivity: int)

  datatype ExpiryReason = MaxDuration | Inactivity

  /** `{ expired, reason? }`: `expired` holds exactly when a reason is given. */
  datatype Expiry = Expiry(expired: bool, reason: Option<ExpiryReason>)

  /** `isSessionExpired`: the overall duration is checked before inactivity, and
      reaching a limit exactly is not yet expiry. */
  function IsSessionExpired(s: SessionData, config: SessionConfig, now: int): (e: Expiry)
    ensures e.expired <==> e.reason.Some?
    ensures e.reason == Some(MaxDuration) <==> now - s.startTime > config.maxDuration
    ensures e.reason == Some(Inactivity) <==>
      (now - s.startTime <= config.maxDuration && now - s.lastActivity > config.inactivityTimeout)
    ensures !e.expired <==>
      (now - s.startTime <= config.maxDuration && now - s.lastActivity <= config.inactivityTimeout)
  {
    if now - s.startTime > config.maxDuration then Expiry(true, Some(MaxDuration))
    else if now - s.lastActivity > config.inactivityTimeout then Expiry(true, Some(Inactivity))
    else Expiry(false, None)
  }

  datatype RemainingTime = RemainingTime(remainingDuration: int, remainingInactivity: int)

  /** `getRemainingTime`: what is left of each limit, never below zero. */
  function GetRemainingTime(s: SessionData, config: SessionConfig, now: int): (r: RemainingTime)
    ensures r.remainingDuration >= 0 && r.remainingInactivity >= 0
    ensures r.remainingDuration == Max(0, config.maxDuration - (now - s.startTime))
    ensures r.remainingInactivity == Max(0, config.inactivityTimeout - (now - s.lastActivity))
    ensures now >= s.startTime ==> r.remainingDuration <= Max(0, config.maxDuration)
    ensures now >= s.lastActivity ==> r.remainingInactivity <= Max(0, config.inactivityTimeout)
  {
    RemainingTime(Max(0, config.maxDuration - (now - s.startTime)),
                  Max(0, config.inactivityTimeout - (now - s.lastActivity)))
  }

  /** The two functions agree: the limit named as the reason has nothing left, and
      while the session is live each remaining time is exactly the unspent part. */
  lemma ExpiryMatchesRemainingTime(s: SessionData, config: SessionConfig, now: int)
    ensures var e := IsSessionExpired(s, config, now);
      var r := GetRemainingTime(s, config, now);
      (e.reason == Some(MaxDuration) ==> r.remainingDuration == 0)
      && (e.reason == Some(Inactivity) ==> r.remainingInactivity == 0)
      && (!e.expired ==>
            (r.remainingDuration == config.maxDuration - (now - s.startTime)
             && r.remainingInactivity == config.inactivityTimeout - (now - s.lastActivity)))
  {
  }

  /** An expired session stays expired at every later instant. */
  lemma ExpiryIsMonotoneInTime(s: SessionData, config: SessionConfig, now: int, later: int)
    requires now <= later
    ensures IsSessionExpired(s, config, now).expired ==> IsSessionExpired(s, config, later).expired
  {
  }

  /** `isTestTimeExpired`: more than the allotted minutes have elapsed. */
  function IsTestTimeExpired(submissionStartTime: int, totalTestDurationMinutes: int, now: int): (expired: bool)
    ensures expired <==> now - submissionStartTime > totalTestDurationMinutes * 60000
  {
    var elapsed := now - submissionStartTime;
    var limit := totalTestDurationMinutes * 60 * 1000;
    elapsed > limit
  }

  /** Once a test has expired it stays expired as the clock advances. */
  lemma TestTimeExpiryIsMonotone(submissionStartTime: int, totalTestDurationMinutes: int, t1: int, t2: int)
    requires t1 <= t2
    ensures IsTestTimeExpired(submissionStartTime, totalTestDurationMinutes, t1) ==>
      IsTestTimeExpired(submissionStartTime, totalTestDurationMinutes, t2)
  {
  }

  /** In every preset the inactivity timeout is shorter than the whole session. */
  lemma PresetsInactivityShorterThanDuration()
    ensures CANDIDATE.inactivityTimeout < CANDIDATE.maxDuration
    ensures RECRUITER.inactivityTimeout < RECRUITER.maxDuration
    ensures ADMIN.inactivityTimeout < ADMIN.maxDuration
  {
  }
}
