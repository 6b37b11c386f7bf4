/**
 * The session registry (models/session.py): a table of login sessions that
 * keeps at most one active session per user. Logging in on a new device
 * evicts the user's other sessions; a request carrying an unknown token is
 * refused while another session of the user was active in the last five
 * minutes, and otherwise replaces the stale session.
 *
 * Times are integer seconds supplied by the caller (`now`).
 */
module Sessions {
  import opened Wrappers

  datatype Reason = Manual | NewDevice | Expired | Admin

  /** One `cert.user.session` record. */
  datatype Session = Session(
    user: nat,
    token: string,
    ipAddress: string,
    userAgent: string,
    fingerprint: Option<string>,
    loginTime: int,
    lastActivity: Option<int>,
    isActive: bool,
    logoutReason: Option<Reason>,
    logoutTime: Option<int>)

  /** The staleness window: five minutes, in seconds. */
  const StaleWindow: int := 5 * 60

  /** The search domain `user_id = user, is_active = True`, and `session_token = token` when a token is given. */
  predicate Matches(s: Session, user: nat, token: Option<string>)
  {
    s.user == user && s.isActive && (token.None? || s.token == token.value)
  }

  /**
   * `search(domain, limit=1)` under the table order `login_time desc`: the
   * matching record with the latest login time (the earliest of equals).
   */
  function Latest(t: seq<Session>, user: nat, token: Option<string>): (r: Option<nat>)
    ensures r.Some? ==> r.value < |t| && Matches(t[r.value], user, token)
    ensures r.Some? ==> forall j :: 0 <= j < |t| && Matches(t[j], user, token) ==> t[j].loginTime <= t[r.value].loginTime
    ensures r.None? ==> forall j :: 0 <= j < |t| ==> !Matches(t[j], user, token)
  {
    if t == [] then None
    else
      var r := Latest(t[..|t| - 1], user, token);
      var last := |t| - 1;
      if Matches(t[last], user, token) && (r.None? || t[last].loginTime > t[r.value].loginTime) then Some(last)
      else r
  }

  /** What `deactivate_session(reason)` writes on one record. */
  function Deactivated(s: Session, reason: Reason, now: int): (d: Session)
    ensures !d.isActive && d.logoutReason == Some(reason) && d.logoutTime == Some(now)
    ensures d.user == s.user && d.token == s.token && d.lastActivity == s.lastActivity && d.loginTime == s.loginTime
  {
    s.(isActive := false, logoutReason := Some(reason), logoutTime := Some(now))
  }

  /** At most one active session per user, over the whole table. */
  ghost predicate AtMostOneActive(t: seq<Session>)
  {
    forall i, j :: 0 <= i < j < |t| && t[i].isActive && t[j].isActive ==> t[i].user != t[j].user
  }

  /** At most one active session for `user`. */
  ghost predicate AtMostOneActiveFor(t: seq<Session>, user: nat)
  {
    forall i, j :: 0 <= i < j < |t| && Matches(t[i], user, None) && Matches(t[j], user, None) ==> false
  }

  /** The positions of the active sessions of `user`. */
  ghost function ActiveOf(t: seq<Session>, user: nat): set<nat>
  {
    set i | 0 <= i < |t| && Matches(t[i], user, None)
  }

  // ---------------------------------------------------------------------
  // The operations, as functions of the table
  // ---------------------------------------------------------------------

  /** `deactivate_session(reason)` on the records at positions `ids`. */
  function DeactivateAt(t: seq<Session>, ids: set<nat>, reason: Reason, now: int): (t': seq<Session>)
    ensures |t'| == |t|
  {
    seq(|t|, i requires 0 <= i < |t| => if i in ids then Deactivated(t[i], reason, now) else t[i])
  }

  function NewSession(user: nat, token: string, ipAddress: Option<string>, userAgent: Option<string>,
                      fingerprint: Option<string>, now: int): Session
  {
    Session(user, token, ipAddress.GetOr(""), userAgent.GetOr(""), Some(fingerprint.GetOr("")),
            now, None, true, None, None)
  }

  /** The table after `create_session`. */
  ghost function AfterCreate(t: seq<Session>, user: nat, token: string, ipAddress: Option<string>,
                             userAgent: Option<string>, fingerprint: Option<string>, now: int): seq<Session>
  {
    DeactivateAt(t, ActiveOf(t, user), NewDevice, now) + [NewSession(user, token, ipAddress, userAgent, fingerprint, now)]
  }

  /** The session `validate_session` creates for a token it accepts without a record. */
  function AutoSession(user: nat, token: string, now: int): Session
  {
    Session(user, token, "", "Auto-created", None, now, Some(now), true, None, None)
  }

  /** Whether a session counts as recently used: it has a last activity later than five minutes ago. */
  predicate RecentlyActive(s: Session, now: int)
  {
    s.lastActivity.Some? && s.lastActivity.value > now - StaleWindow
  }

  /** The result and the table after `validate_session`. */
  function ValidateOutcome(t: seq<Session>, user: nat, token: string, autoCreate: bool, now: int): (bool, seq<Session>)
  {
    if token == "" then (false, t)
    else
      match Latest(t, user, Some(token))
      case Some(i) => (true, t[i := t[i].(lastActivity := Some(now))])
      case None =>
        var other := Latest(t, user, None);
        if other.Some? && RecentlyActive(t[other.value], now) then (false, t)
        else
          var t1 := if other.Some? then DeactivateAt(t, {other.value}, Expired, now) else t;
          if autoCreate then (true, t1 + [AutoSession(user, token, now)]) else (false, t1)
  }

  /** How many records of the table belong to `user` (`Portal.CountFor` is the same count over applications). */
  function CountOf(t: seq<Session>, user: nat): (n: nat)
    ensures n <= |t|
  {
    if t == [] then 0 else (if t[0].user == user then 1 else 0) + CountOf(t[1..], user)
  }

  /** The table after `action_clear_all_user_sessions`: every record of `user` removed, the rest kept in order. */
  function RemoveUser(t: seq<Session>, user: nat): (r: seq<Session>)
    ensures |r| == |t| - CountOf(t, user)
    ensures forall i :: 0 <= i < |r| ==> r[i].user != user
    ensures forall s :: s in r <==> s in t && s.user != user
  {
    if t == [] then []
    else if t[0].user == user then RemoveUser(t[1..], user)
    else [t[0]] + RemoveUser(t[1..], user)
  }

  // ---------------------------------------------------------------------
  // Properties
  // ---------------------------------------------------------------------

  lemma OneActivePerUser(t: seq<Session>, i: nat, j: nat)
    requires AtMostOneActive(t)
    requires i < |t| && j < |t| && t[i].isActive && t[j].isActive && t[i].user == t[j].user
    ensures i == j
  {
  }

  lemma OneActiveFor(t: seq<Session>, user: nat, i: nat, j: nat)
    requires AtMostOneActiveFor(t, user)
    requires i < |t| && j < |t| && Matches(t[i], user, None) && Matches(t[j], user, None)
    ensures i == j
  {
  }

  /**
   * After `create_session(user, token)` the user has exactly one active
   * session, the new one; every session that was active for the user is
   * inactive with reason `new_device`; other users' sessions are untouched.
   */
  lemma CreateSessionEffect(t: seq<Session>, user: nat, token: string, ipAddress: Option<string>,
                            userAgent: Option<string>, fingerprint: Option<string>, now: int)
    ensures var t' := AfterCreate(t, user, token, ipAddress, userAgent, fingerprint, now);
      && |t'| == |t| + 1
      && ActiveOf(t', user) == {|t|}
      && t'[|t|].token == token
      && (forall i :: 0 <= i < |t| && Matches(t[i], user, None) ==>
            !t'[i].isActive && t'[i].logoutReason == Some(NewDevice))
      && (forall i :: 0 <= i < |t| && !Matches(t[i], user, None) ==> t'[i] == t[i])
      && (forall i :: 0 <= i < |t| && t[i].user != user ==> t'[i] == t[i])
  {
    var t' := AfterCreate(t, user, token, ipAddress, userAgent, fingerprint, now);
    forall i | 0 <= i < |t'| ensures i in ActiveOf(t', user) <==> i == |t| {
      if i < |t| {
        assert t'[i] == DeactivateAt(t, ActiveOf(t, user), NewDevice, now)[i];
      }
    }
  }

  /** `create_session` keeps the table-wide invariant. */
  lemma CreateSessionKeepsInvariant(t: seq<Session>, user: nat, token: string, ipAddress: Option<string>,
                                    userAgent: Option<string>, fingerprint: Option<string>, now: int)
    requires AtMostOneActive(t)
    ensures AtMostOneActive(AfterCreate(t, user, token, ipAddress, userAgent, fingerprint, now))
  {
    var t' := AfterCreate(t, user, token, ipAddress, userAgent, fingerprint, now);
    CreateSessionEffect(t, user, token, ipAddress, userAgent, fingerprint, now);
    forall i, j | 0 <= i < j < |t'| && t'[i].isActive && t'[j].isActive ensures t'[i].user != t'[j].user {
      if j == |t| {
        assert Matches(t'[j], user, None);
        assert i !in ActiveOf(t', user);
      } else {
        assert t'[i] == t[i] && t'[j] == t[j];
      }
    }
  }

  /** An empty token is refused and nothing changes. */
  lemma ValidateEmptyToken(t: seq<Session>, user: nat, autoCreate: bool, now: int)
    ensures ValidateOutcome(t, user, "", autoCreate, now) == (false, t)
  {
  }

  /**
   * A token with an active session of the user is accepted and only that
   * session's last activity changes.
   */
  lemma ValidateKnownToken(t: seq<Session>, user: nat, token: string, autoCreate: bool, now: int, k: nat)
    requires token != "" && k < |t| && Matches(t[k], user, Some(token))
    ensures var (ok, t') := ValidateOutcome(t, user, token, autoCreate, now);
      && ok
      && |t'| == |t|
      && exists i :: 0 <= i < |t| && Matches(t[i], user, Some(token)) && t' == t[i := t[i].(lastActivity := Some(now))]
  {
    var i := Latest(t, user, Some(token)).value;
    assert Matches(t[i], user, Some(token));
  }

  /**
   * No session with this token, and the user's active session was used in
   * the last five minutes: refused, nothing changes (a second device).
   */
  lemma ValidateConflict(t: seq<Session>, user: nat, token: string, autoCreate: bool, now: int, k: nat)
    requires AtMostOneActive(t)
    requires token != "" && (forall j :: 0 <= j < |t| ==> !Matches(t[j], user, Some(token)))
    requires k < |t| && Matches(t[k], user, None) && RecentlyActive(t[k], now)
    ensures ValidateOutcome(t, user, token, autoCreate, now) == (false, t)
  {
    var o := Latest(t, user, None).value;
    OneActivePerUser(t, o, k);
  }

  /**
   * No session with this token, and the user's active session is stale:
   * it is deactivated with reason `expired`; with `autoCreate` a new active
   * session for the token is added and the token accepted, otherwise refused.
   */
  lemma ValidateStale(t: seq<Session>, user: nat, token: string, autoCreate: bool, now: int, k: nat)
    requires AtMostOneActive(t)
    requires token != "" && (forall j :: 0 <= j < |t| ==> !Matches(t[j], user, Some(token)))
    requires k < |t| && Matches(t[k], user, None) && !RecentlyActive(t[k], now)
    ensures var (ok, t') := ValidateOutcome(t, user, token, autoCreate, now);
      && ok == autoCreate
      && |t'| == (if autoCreate then |t| + 1 else |t|)
      && !t'[k].isActive && t'[k].logoutReason == Some(Expired)
      && (forall i :: 0 <= i < |t| && i != k ==> t'[i] == t[i])
      && (autoCreate ==> t'[|t|] == AutoSession(user, token, now))
  {
    var o := Latest(t, user, None).value;
    OneActivePerUser(t, o, k);
  }

  /** No session of the user at all: the token is accepted exactly when `autoCreate` is set. */
  lemma ValidateFirstSession(t: seq<Session>, user: nat, token: string, autoCreate: bool, now: int)
    requires token != "" && (forall j :: 0 <= j < |t| ==> !Matches(t[j], user, None))
    ensures ValidateOutcome(t, user, token, autoCreate, now) ==
            if autoCreate then (true, t + [AutoSession(user, token, now)]) else (false, t)
  {
    assert Latest(t, user, Some(token)).None? by {
      forall j | 0 <= j < |t| ensures !Matches(t[j], user, Some(token)) {
        assert !Matches(t[j], user, None);
      }
    }
  }

  /** A user with at most one active session before `validate_session` has at most one after it. */
  lemma ValidateKeepsAtMostOne(t: seq<Session>, user: nat, token: string, autoCreate: bool, now: int)
    requires AtMostOneActiveFor(t, user)
    ensures AtMostOneActiveFor(ValidateOutcome(t, user, token, autoCreate, now).1, user)
  {
    var t' := ValidateOutcome(t, user, token, autoCreate, now).1;
    if token != "" && Latest(t, user, Some(token)).None? {
      var other := Latest(t, user, None);
      if !(other.Some? && RecentlyActive(t[other.value], now)) && autoCreate {
        forall i | 0 <= i < |t| ensures !Matches(t'[i], user, None) {
          if other.Some? && Matches(t[i], user, None) {
            OneActiveFor(t, user, i, other.value);
          }
        }
      }
    }
  }

  /**
   * `validate_session` only appends sessions of the user, and never
   * activates an existing session or changes whose it is.
   */
  lemma ValidateShape(t: seq<Session>, user: nat, token: string, autoCreate: bool, now: int)
    ensures var t' := ValidateOutcome(t, user, token, autoCreate, now).1;
      && |t| <= |t'|
      && (forall i :: 0 <= i < |t| ==> t'[i].user == t[i].user && (t'[i].isActive ==> t[i].isActive))
      && (forall i :: |t| <= i < |t'| ==> t'[i].user == user)
  {
    var t' := ValidateOutcome(t, user, token, autoCreate, now).1;
    if token != "" && Latest(t, user, Some(token)).None? {
      var other := Latest(t, user, None);
      if !(other.Some? && RecentlyActive(t[other.value], now)) {
        var t1 := if other.Some? then DeactivateAt(t, {other.value}, Expired, now) else t;
        assert forall i :: 0 <= i < |t| ==> t1[i].user == t[i].user && (t1[i].isActive ==> t[i].isActive);
        assert t' == if autoCreate then t1 + [AutoSession(user, token, now)] else t1;
      }
    }
  }

  /** `validate_session` keeps the table-wide invariant. */
  lemma ValidateKeepsInvariant(t: seq<Session>, user: nat, token: string, autoCreate: bool, now: int)
    requires AtMostOneActive(t)
    ensures AtMostOneActive(ValidateOutcome(t, user, token, autoCreate, now).1)
  {
    var t' := ValidateOutcome(t, user, token, autoCreate, now).1;
    ValidateKeepsAtMostOne(t, user, token, autoCreate, now);
    ValidateShape(t, user, token, autoCreate, now);
    forall i, j | 0 <= i < j < |t'| && t'[i].isActive && t'[j].isActive ensures t'[i].user != t'[j].user {
      if t'[i].user == user && t'[j].user == user {
        assert Matches(t'[i], user, None) && Matches(t'[j], user, None);
      }
    }
  }

  /** A token `validate_session` accepts has an active session afterwards. */
  lemma ValidateAcceptedIsActive(t: seq<Session>, user: nat, token: string, autoCreate: bool, now: int)
    ensures var (ok, t') := ValidateOutcome(t, user, token, autoCreate, now);
      ok ==> exists i :: 0 <= i < |t'| && Matches(t'[i], user, Some(token))
  {
    var (ok, t') := ValidateOutcome(t, user, token, autoCreate, now);
    if ok {
      match Latest(t, user, Some(token))
      case Some(i) => assert Matches(t'[i], user, Some(token));
      case None => assert Matches(t'[|t'| - 1], user, Some(token));
    }
  }

  // ---------------------------------------------------------------------
  // The table, updated in place
  // ---------------------------------------------------------------------

  class SessionTable {
    var sessions: seq<Session>

    constructor ()
      ensures sessions == []
    {
      sessions := [];
    }

    /** `deactivate_session(reason)` on the records at positions `ids`; the reason defaults to `manual`. */
    method DeactivateSessions(ids: set<nat>, now: int, reason: Reason := Manual)
      modifies this
      ensures sessions == DeactivateAt(old(sessions), ids, reason, now)
      ensures |sessions| == |old(sessions)|
      ensures forall i :: 0 <= i < |sessions| && i in ids ==> sessions[i] == Deactivated(old(sessions)[i], reason, now)
      ensures forall i :: 0 <= i < |sessions| && i !in ids ==> sessions[i] == old(sessions)[i]
    {
      sessions := DeactivateAt(sessions, ids, reason, now);
    }

    /** `create_session`: evicts the user's active sessions, then adds the new one; returns its position. */
    method CreateSession(user: nat, token: string, ipAddress: Option<string>, userAgent: Option<string>,
                         fingerprint: Option<string>, now: int) returns (created: nat)
      modifies this
      ensures sessions == AfterCreate(old(sessions), user, token, ipAddress, userAgent, fingerprint, now)
      ensures created == |old(sessions)| && created < |sessions| && sessions[created].token == token
      ensures old(AtMostOneActive(sessions)) ==> AtMostOneActive(sessions)
    {
      ghost var t := sessions;
      var oldSessions := set i | 0 <= i < |sessions| && Matches(sessions[i], user, None);
      if oldSessions != {} {
        DeactivateSessions(oldSessions, now, NewDevice);
      }
      created := |sessions|;
      sessions := sessions + [NewSession(user, token, ipAddress, userAgent, fingerprint, now)];
      assert oldSessions == ActiveOf(t, user);
      assert oldSessions == {} ==> DeactivateAt(t, oldSessions, NewDevice, now) == t;
      if AtMostOneActive(t) {
        CreateSessionKeepsInvariant(t, user, token, ipAddress, userAgent, fingerprint, now);
      }
    }

    /** `validate_session`: whether the request's token is (now) the user's active session. */
    method ValidateSession(user: nat, token: string, now: int, autoCreate: bool := true) returns (ok: bool)
      modifies this
      ensures (ok, sessions) == ValidateOutcome(old(sessions), user, token, autoCreate, now)
      ensures old(AtMostOneActive(sessions)) ==> AtMostOneActive(sessions)
    {
      ghost var t := sessions;
      if AtMostOneActive(t) {
        ValidateKeepsInvariant(t, user, token, autoCreate, now);
      }
      if token == "" {
        return false;
      }
      var session := Latest(sessions, user, Some(token));
      if session.Some? {
        var i := session.value;
        sessions := sessions[i := sessions[i].(lastActivity := Some(now))];
        return true;
      }
      var other := Latest(sessions, user, None);
      if other.Some? {
        if RecentlyActive(sessions[other.value], now) {
          return false;
        } else {
          DeactivateSessions({other.value}, now, Expired);
        }
      }
      if autoCreate {
        sessions := sessions + [AutoSession(user, token, now)];
        return true;
      }
      return false;
    }

    /** `get_active_session`: the user's active session, if any. */
    function GetActiveSession(user: nat): (r: Option<nat>)
      reads this
      ensures r.Some? <==> ActiveOf(sessions, user) != {}
      ensures r.Some? && AtMostOneActive(sessions) ==> ActiveOf(sessions, user) == {r.value}
    {
      var r := Latest(sessions, user, None);
      if r.Some? then
        assert r.value in ActiveOf(sessions, user);
        r
      else
        assert ActiveOf(sessions, user) == {};
        r
    }

    /**
     * `action_force_logout` on the record at position `k`: deactivates it with
     * reason `admin`. The notification names the record's user, which only a
     * single record has, so the action is modelled on one record.
     */
    method ForceLogout(k: nat, now: int)
      requires k < |sessions|
      modifies this
      ensures sessions == DeactivateAt(old(sessions), {k}, Admin, now)
      ensures !sessions[k].isActive && sessions[k].logoutReason == Some(Admin)
      ensures AtMostOneActive(old(sessions)) ==> AtMostOneActive(sessions)
    {
      DeactivateSessions({k}, now, Admin);
      if AtMostOneActive(old(sessions)) {
        DeactivateKeepsInvariant(old(sessions), {k}, Admin, now);
      }
    }

    /**
     * `action_clear_all_user_sessions` on the record at position `k`: deletes
     * every session of that record's user and returns how many there were.
     */
    method ClearAllUserSessions(k: nat) returns (count: nat)
      requires k < |sessions|
      modifies this
      ensures sessions == RemoveUser(old(sessions), old(sessions)[k].user)
      ensures count == CountOf(old(sessions), old(sessions)[k].user) && count >= 1
      ensures forall s :: s in sessions ==> s.user != old(sessions)[k].user
    {
      var user := sessions[k].user;
      CountOfPositive(sessions, k);
      var remaining := RemoveUser(sessions, user);
      count := |sessions| - |remaining|;
      sessions := remaining;
    }
  }

  /** Deactivating sessions never breaks the at-most-one-active rule. */
  lemma DeactivateKeepsInvariant(t: seq<Session>, ids: set<nat>, reason: Reason, now: int)
    requires AtMostOneActive(t)
    ensures AtMostOneActive(DeactivateAt(t, ids, reason, now))
  {
  }

  lemma {:induction false} CountOfPositive(t: seq<Session>, k: nat)
    requires k < |t|
    ensures CountOf(t, t[k].user) >= 1
  {
    if k > 0 {
      CountOfPositive(t[1..], k - 1);
    }
  }
}
