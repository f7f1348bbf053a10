/** The in-memory session store (backend/app/models.py): sessions keyed by id, each
    expiring one hour after creation. The clock and the random id generator are
    parameters of the operations that use them. */
module Sessions {
  import opened Common

  datatype GitHubUser = GitHubUser(
    id: int,
    login: string,
    name: Option<string>,
    email: Option<string>,
    avatarUrl: string)

  datatype Session = Session(
    sessionId: string,
    accessToken: string,
    user: GitHubUser,
    createdAt: real,
    expiresAt: real)

  /** session_timeout, in seconds. */
  const SessionTimeout: real := 3600.0

  /** A stored session is still valid at time `now`. */
  predicate Unexpired(s: Session, now: real)
  {
    s.expiresAt > now
  }

  /** The sessions that survive a cleanup at time `now`. */
  function Live(sessions: map<string, Session>, now: real): (r: map<string, Session>)
    ensures forall id :: id in r <==> id in sessions && Unexpired(sessions[id], now)
    ensures forall id :: id in r ==> r[id] == sessions[id]
  {
    map id | id in sessions && Unexpired(sessions[id], now) :: sessions[id]
  }

  /** Cleaning up at a later time subsumes cleaning up at an earlier one. */
  lemma LiveLater(sessions: map<string, Session>, earlier: real, later: real)
    requires earlier <= later
    ensures Live(Live(sessions, earlier), later) == Live(sessions, later)
  {
  }

  class SessionManager {
    /** `self.sessions`. */
    var sessions: map<string, Session>

    /** Every session is stored under its own id and lasts exactly the timeout. */
    ghost predicate Valid()
      reads this
    {
      forall id :: id in sessions ==>
        sessions[id].sessionId == id && sessions[id].expiresAt == sessions[id].createdAt + SessionTimeout
    }

    constructor ()
      ensures Valid() && sessions == map[]
    {
      sessions := map[];
    }

    /** create_session: `freshId` is the value of secrets.token_urlsafe(32) and `now`
        the clock. An existing session under the same id is replaced. */
    method CreateSession(accessToken: string, user: GitHubUser, freshId: string, now: real) returns (id: string)
      requires Valid()
      modifies this
      ensures Valid()
      ensures id == freshId
      ensures sessions == old(sessions)[freshId := Session(freshId, accessToken, user, now, now + SessionTimeout)]
    {
      sessions := sessions[freshId := Session(freshId, accessToken, user, now, now + SessionTimeout)];
      id := freshId;
    }

    /** get_session: an unexpired session is returned; an expired one is deleted and
        None returned; an unknown id changes nothing. */
    method GetSession(sessionId: string, now: real) returns (s: Option<Session>)
      requires Valid()
      modifies this
      ensures Valid()
      ensures s.Some? <==> sessionId in old(sessions) && Unexpired(old(sessions)[sessionId], now)
      ensures s.Some? ==> s.value == old(sessions)[sessionId] && s.value.sessionId == sessionId
      ensures sessions == if s.Some? then old(sessions) else old(sessions) - {sessionId}
    {
      if sessionId in sessions {
        var session := sessions[sessionId];
        if session.expiresAt > now {
          return Some(session);
        }
        sessions := sessions - {sessionId};
      }
      return None;
    }

    /** delete_session: reports whether the id was present and removes it. */
    method DeleteSession(sessionId: string) returns (deleted: bool)
      requires Valid()
      modifies this
      ensures Valid()
      ensures deleted <==> sessionId in old(sessions)
      ensures sessions == old(sessions) - {sessionId}
    {
      if sessionId in sessions {
        sessions := sessions - {sessionId};
        return true;
      }
      return false;
    }

    /** cleanup_expired_sessions: collect the ids that have expired at `now`, then delete
        them one by one. */
    method CleanupExpiredSessions(now: real)
      requires Valid()
      modifies this
      ensures Valid()
      ensures sessions == Live(old(sessions), now)
    {
      var expired := set id | id in sessions && !Unexpired(sessions[id], now);
      ghost var before := sessions;
      while expired != {}
        invariant Valid()
        invariant expired <= sessions.Keys
        invariant forall id :: id in expired ==> id in before && !Unexpired(before[id], now)
        invariant forall id :: id in sessions <==> id in before && (Unexpired(before[id], now) || id in expired)
        invariant forall id :: id in sessions ==> sessions[id] == before[id]
        decreases |expired|
      {
        var sid :| sid in expired;
        sessions := sessions - {sid};
        expired := expired - {sid};
      }
    }
  }
}
