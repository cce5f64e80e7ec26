/**
 * The logout router: the inactivity middleware `handleInactivity`, mounted
 * on every route of the router, and `POST /deconnexion`. Both clear the
 * account's stored token and destroy the session.
 */
module Deconnexion {
  import opened Common
  import opened Accounts

  /** `INACTIVITY_LIMIT`: 30 minutes in milliseconds. */
  const InactivityLimit := 30 * 60 * 1000

  /** The path of the logout route inside its router. */
  const LogoutPath := "/deconnexion"

  /** Paths the middleware lets through untouched. */
  predicate Bypassed(path: string)
  {
    StartsWith(path, "/api/") || Includes(path, "/stats/") || Includes(path, "/lire") || Includes(path, "/rechercher")
  }

  /** `req.session.lastActivity && now - req.session.lastActivity > INACTIVITY_LIMIT` */
  predicate Idle(lastActivity: Option<int>, now: int)
  {
    NonZero(lastActivity) && now - lastActivity.value > InactivityLimit
  }

  /** What the middleware does with the request: pass it on, or answer it. */
  datatype Step =
    | Next
    | SessionMissing          // 500 "Session non initialisée"
    | SessionExpired          // 401 "Session expirée par inactivité.", redirect "/"
    | AutoLogoutFailed        // 500 "Erreur lors de la déconnexion automatique." (destroy failed)
    | InternalError           // 500 "Erreur interne du serveur." (the UPDATE threw)

  function StepStatus(s: Step): int
  {
    match s
    case Next => 0
    case SessionMissing => 500
    case SessionExpired => 401
    case AutoLogoutFailed => 500
    case InternalError => 500
  }

  /**
   * `handleInactivity(req, res, next)` at clock `now`. `sess` is
   * `req.session`; `destroyFails` is the store reporting an error to
   * `req.session.destroy`, in which case the stored session is kept.
   */
  method HandleInactivity(store: UserStore, sess: Session?, path: string, now: int, destroyFails: bool) returns (s: Step)
    requires store.Valid()
    modifies store, sess
    ensures store.Valid() && store.nextId == old(store.nextId)
    ensures sess == null ==> s == SessionMissing && store.rows == old(store.rows)
    ensures sess != null && (Bypassed(path) || !LoggedIn(old(sess.userId))) ==>
      s == Next && store.rows == old(store.rows) && unchanged(sess)
    ensures sess != null && !Bypassed(path) && LoggedIn(old(sess.userId)) && !Idle(old(sess.lastActivity), now) ==>
      && s == Next && store.rows == old(store.rows)
      && sess.lastActivity == Some(now) && sess.userId == old(sess.userId) && sess.destroyed == old(sess.destroyed)
    ensures sess != null && !Bypassed(path) && LoggedIn(old(sess.userId)) && Idle(old(sess.lastActivity), now) ==>
      var id := old(sess.userId).value;
      && (id !in old(store.rows) ==> s == InternalError && store.rows == old(store.rows) && unchanged(sess))
      && (id in old(store.rows) ==>
            && store.rows == old(store.rows)[id := old(store.rows)[id].(token := Cleared, estEnLigne := false)]
            && (destroyFails ==> s == AutoLogoutFailed && unchanged(sess))
            && (!destroyFails ==> s == SessionExpired && sess.destroyed && sess.userId == None && sess.lastActivity == None))
  {
    if sess == null {
      return SessionMissing;
    }
    if Bypassed(path) {
      return Next;
    }
    if LoggedIn(sess.userId) {
      if Idle(sess.lastActivity, now) {
        var id := sess.userId.value;
        if id !in store.rows {
          return InternalError;
        }
        store.Put(id, store.rows[id].(token := Cleared, estEnLigne := false));
        if destroyFails {
          return AutoLogoutFailed;
        }
        sess.Destroy();
        return SessionExpired;
      } else {
        sess.lastActivity := Some(now);
      }
    }
    s := Next;
  }

  datatype LogoutReply =
    | LogoutSessionMissing    // 500 "Session non initialisée"
    | LogoutFailed            // 500 "Erreur lors de la déconnexion."
    | LoggedOut               // 200 "Déconnexion réussie.", redirect "/"
    | NotLoggedIn             // 200 "Utilisateur non connecté.", redirect "/"

  function LogoutStatus(r: LogoutReply): int
  {
    match r
    case LogoutSessionMissing => 500
    case LogoutFailed => 500
    case LoggedOut => 200
    case NotLoggedIn => 200
  }

  /** The `POST /deconnexion` handler, reached once the middleware called `next()`. */
  method Logout(store: UserStore, sess: Session?, destroyFails: bool) returns (r: LogoutReply)
    requires store.Valid()
    modifies store, sess
    ensures store.Valid() && store.nextId == old(store.nextId)
    ensures sess == null ==> r == LogoutSessionMissing && store.rows == old(store.rows)
    ensures sess != null && !LoggedIn(old(sess.userId)) ==> r == NotLoggedIn && store.rows == old(store.rows) && unchanged(sess)
    ensures sess != null && LoggedIn(old(sess.userId)) ==>
      var id := old(sess.userId).value;
      && (id !in old(store.rows) ==> r == LogoutFailed && store.rows == old(store.rows) && unchanged(sess))
      && (id in old(store.rows) ==>
            && store.rows == old(store.rows)[id := old(store.rows)[id].(token := Cleared, estEnLigne := false)]
            && (destroyFails ==> r == LogoutFailed && unchanged(sess))
            && (!destroyFails ==> r == LoggedOut && sess.destroyed && sess.userId == None && sess.lastActivity == None))
  {
    if sess == null {
      return LogoutSessionMissing;
    }
    if LoggedIn(sess.userId) {
      var id := sess.userId.value;
      if id !in store.rows {
        return LogoutFailed;
      }
      store.Put(id, store.rows[id].(token := Cleared, estEnLigne := false));
      if destroyFails {
        return LogoutFailed;
      }
      sess.Destroy();
      r := LoggedOut;
    } else {
      r := NotLoggedIn;
    }
  }

  /** What the client receives for `POST /logout/deconnexion`. */
  datatype LogoutRouteReply = Stopped(step: Step) | Handled(reply: LogoutReply)

  /**
   * `POST /logout/deconnexion`: the middleware runs first; an idle session
   * is answered 401 by it and never reaches the handler.
   */
  method PostDeconnexion(store: UserStore, sess: Session?, now: int, destroyFails: bool) returns (r: LogoutRouteReply)
    requires store.Valid()
    modifies store, sess
    ensures store.Valid() && store.nextId == old(store.nextId)
    ensures sess != null && LoggedIn(old(sess.userId)) && Idle(old(sess.lastActivity), now) && old(sess.userId).value in old(store.rows) ==>
      r == Stopped(if destroyFails then AutoLogoutFailed else SessionExpired)
    ensures sess != null && LoggedIn(old(sess.userId)) && old(sess.userId).value in old(store.rows) ==>
      var id := old(sess.userId).value;
      store.rows == old(store.rows)[id := old(store.rows)[id].(token := Cleared, estEnLigne := false)]
    ensures sess != null && !LoggedIn(old(sess.userId)) ==> r == Handled(NotLoggedIn) && store.rows == old(store.rows)
  {
    LogoutPathChecked();
    var s := HandleInactivity(store, sess, LogoutPath, now, destroyFails);
    if s != Next {
      return Stopped(s);
    }
    var reply := Logout(store, sess, destroyFails);
    r := Handled(reply);
  }

  /** `c` does not occur in `s` at or after position `i`. */
  predicate LacksFrom(s: string, c: char, i: nat)
    decreases |s| - i
  {
    i >= |s| || (s[i] != c && LacksFrom(s, c, i + 1))
  }

  lemma {:induction false} LacksAt(s: string, c: char, i: nat, j: int)
    requires LacksFrom(s, c, i) && i <= j < |s|
    ensures s[j] != c
    decreases j - i
  {
    if j > i {
      LacksAt(s, c, i + 1, j);
    }
  }

  /** A text cannot include a part one of whose characters it lacks. */
  lemma NotIncludedWithout(s: string, part: string, k: int)
    requires 0 <= k < |part| && LacksFrom(s, part[k], 0)
    ensures !Includes(s, part)
  {
    forall i | 0 <= i <= |s| - |part|
      ensures !OccursAt(s, part, i)
    {
      LacksAt(s, part[k], 0, i + k);
      assert s[i..i + |part|][k] == s[i + k];
    }
  }

  /** The logout path is never bypassed by the middleware. */
  lemma LogoutPathChecked()
    ensures !Bypassed(LogoutPath)
  {
    var p := LogoutPath;
    assert p[..5][1] == 'd';
    assert LacksFrom(p, 'l', 0);
    assert LacksFrom(p, 's', 0);
    assert LacksFrom(p, 'r', 0);
    NotIncludedWithout(p, "/lire", 1);
    NotIncludedWithout(p, "/stats/", 1);
    NotIncludedWithout(p, "/rechercher", 1);
  }

  /** A session whose `lastActivity` was never set (as right after login) is never idle. */
  lemma FreshSessionNeverIdle(now: int)
    ensures !Idle(None, now)
  {
  }
}
