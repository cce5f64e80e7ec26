/**
 * Application setup: the session cookie options and the `protectedStatic`
 * middleware (defined next to the static mounts but mounted on none of them).
 */
module App {
  import opened Common
  import opened Accounts

  /** The cookie options handed to express-session. */
  datatype CookieOptions = CookieOptions(secure: bool, sameSite: string, maxAgeMillis: int, rolling: bool)

  /** The session middleware's own options. */
  datatype SessionOptions = SessionOptions(resave: bool, saveUninitialized: bool, rolling: bool, cookie: CookieOptions)

  /**
   * The options of `session({...})` for a given `SESSION_ENV`. `rolling`
   * is written inside the cookie options, where express-session does not
   * read it; the middleware's own `rolling` stays off.
   */
  function SessionConfig(sessionEnv: Option<string>): (o: SessionOptions)
    ensures o.cookie.secure <==> sessionEnv == Some("production")
    ensures o.cookie.maxAgeMillis == 60 * 60 * 1000 && o.cookie.sameSite == "Lax"
    ensures !o.resave && o.saveUninitialized && !o.rolling
  {
    SessionOptions(false, true, false, CookieOptions(sessionEnv == Some("production"), "Lax", 60 * 60 * 1000, true))
  }

  /** What `protectedStatic` does with a request. */
  datatype StaticStep =
    | RedirectHome      // `res.redirect("/")`
    | NoResponse        // the session is destroyed and the request is left unanswered
    | PassOn            // `next()`
    | Crash             // `req.session` is undefined: reading `userId` throws

  /**
   * `protectedStatic(req, res, next)` at clock `now`. An idle session is
   * destroyed; the request is redirected only if the destroy fails. The
   * account's token and online flag are not touched.
   */
  method ProtectedStatic(sess: Session?, now: int, destroyFails: bool) returns (s: StaticStep)
    modifies sess
    ensures sess == null ==> s == Crash
    ensures sess != null && !LoggedIn(old(sess.userId)) ==> s == RedirectHome && unchanged(sess)
    ensures sess != null && LoggedIn(old(sess.userId)) ==>
      var idle := NonZero(old(sess.lastActivity)) && now - old(sess.lastActivity).value > 30 * 60 * 1000;
      && (idle && destroyFails ==> s == RedirectHome && unchanged(sess))
      && (idle && !destroyFails ==> s == NoResponse && sess.destroyed && sess.userId == None && sess.lastActivity == None)
      && (!idle ==> s == PassOn && sess.lastActivity == Some(now)
                    && sess.userId == old(sess.userId) && sess.destroyed == old(sess.destroyed))
  {
    if sess == null {
      return Crash;
    }
    if !LoggedIn(sess.userId) {
      return RedirectHome;
    }
    if NonZero(sess.lastActivity) && now - sess.lastActivity.value > 30 * 60 * 1000 {
      if destroyFails {
        return RedirectHome;
      }
      sess.Destroy();
      s := NoResponse;
    } else {
      sess.lastActivity := Some(now);
      s := PassOn;
    }
  }
}
