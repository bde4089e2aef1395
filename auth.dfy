/** Session-cookie authentication of the web application: the start-up
    configuration check, the password comparison, the login, logout and status
    endpoints, and the gate that every request passes before it reaches a
    route. The configuration is read once from the environment and becomes a
    value here. */
module Auth {
  import opened Wrappers
  import opened Text
  import opened Json

  /** The raw environment values: `AUTH_MODE` (default `"required"`),
      `APP_USER` (default `"me"`), `APP_PASSWORD`, `SESSION_SECRET`. */
  datatype Config = Config(authMode: string, appUser: string, appPassword: string, sessionSecret: string)

  /** `AUTH_MODE.lower() == "required"` */
  predicate AuthEnabled(cfg: Config) {
    Lower(cfg.authMode) == "required"
  }

  /** The import-time check: required mode needs a session secret and a
      password, in that order. */
  function StartupCheck(cfg: Config): (r: Result<(), string>)
    ensures r.Ok? <==> !AuthEnabled(cfg) || (cfg.sessionSecret != "" && cfg.appPassword != "")
  {
    if AuthEnabled(cfg) && cfg.sessionSecret == "" then Err("Set SESSION_SECRET in .env (long random string)")
    else if AuthEnabled(cfg) && cfg.appPassword == "" then Err("Set APP_PASSWORD in .env")
    else Ok(())
  }

  predicate Ascii(s: string) {
    forall i :: 0 <= i < |s| ==> s[i] as int < 0x80
  }

  /** `secrets.compare_digest(a, b)` on two `str`: a `TypeError` unless both are
      ASCII, otherwise equality (in time independent of where they differ). */
  function CompareDigest(a: string, b: string): (r: Result<bool, string>)
    ensures r.Err? <==> !Ascii(a) || !Ascii(b)
    ensures r.Ok? ==> (r.value <==> a == b)
  {
    if !Ascii(a) || !Ascii(b) then Err("comparing strings with non-ASCII characters is not supported")
    else Ok(a == b)
  }

  /** `verify_password(plain)` */
  function VerifyPassword(cfg: Config, plain: string): (r: Result<bool, string>)
    ensures r.Ok? && r.value <==> plain == cfg.appPassword && Ascii(plain)
    ensures r.Err? <==> !Ascii(plain) || !Ascii(cfg.appPassword)
  {
    CompareDigest(plain, cfg.appPassword)
  }

  /** `request.session.get("authed") is True`: only the boolean `true` counts. */
  predicate Authed(session: map<string, Json>) {
    "authed" in session && session["authed"] == JBool(true)
  }

  /** The body of `/api/auth/status`: `authed` is present only when
      authentication is required. */
  datatype AuthStatus = AuthStatus(mode: string, authed: Option<bool>)

  function Status(cfg: Config, session: map<string, Json>): (r: AuthStatus)
    ensures r.mode == "open" <==> !AuthEnabled(cfg)
    ensures r.authed.None? <==> !AuthEnabled(cfg)
    ensures r.authed == Some(true) <==> AuthEnabled(cfg) && Authed(session)
  {
    if !AuthEnabled(cfg) then AuthStatus("open", None)
    else AuthStatus("required", Some(Authed(session)))
  }

  /** An HTTP error raised by a route: status code and detail. */
  datatype HttpError = HttpError(status: int, detail: string)

  const ServerError := HttpError(500, "Internal Server Error")
  const NotAuthenticated := HttpError(401, "Not authenticated")

  /** The signed session cookie of one client, as the routes see it. */
  class Session {
    var values: map<string, Json>

    constructor (values: map<string, Json>)
      ensures this.values == values
    {
      this.values := values;
    }

    /** `POST /api/login`: both comparisons run before the check; a non-ASCII
        input makes `compare_digest` raise, which the framework answers with a
        server error. */
    method Login(cfg: Config, username: string, password: string) returns (r: Result<(), HttpError>)
      modifies this
      ensures r.Ok? <==> LoginAccepted(cfg, username, password)
      ensures r.Ok? ==> values == old(values)["authed" := JBool(true)] && Authed(values)
      ensures r.Err? ==> values == old(values)
      ensures r.Err? ==> r.error == LoginRefusal(cfg, username, password)
    {
      var userOk := CompareDigest(username, cfg.appUser);
      if userOk.Err? {
        return Err(ServerError);
      }
      var passOk := VerifyPassword(cfg, password);
      if passOk.Err? {
        return Err(ServerError);
      }
      if !(userOk.value && passOk.value) {
        return Err(HttpError(401, "Invalid credentials"));
      }
      values := values["authed" := JBool(true)];
      r := Ok(());
    }

    /** `POST /api/logout` */
    method Logout()
      modifies this
      ensures values == map[] && !Authed(values)
    {
      values := map[];
    }
  }

  /** When a login succeeds: exactly the configured user name and password. */
  predicate LoginAccepted(cfg: Config, username: string, password: string) {
    Ascii(username) && Ascii(cfg.appUser) && Ascii(password) && Ascii(cfg.appPassword)
    && username == cfg.appUser && password == cfg.appPassword
  }

  /** The error a refused login answers with. */
  function LoginRefusal(cfg: Config, username: string, password: string): (e: HttpError)
    ensures e.status == 401 || e.status == 500
    ensures e.status == 500 <==> !(Ascii(username) && Ascii(cfg.appUser) && Ascii(password) && Ascii(cfg.appPassword))
  {
    if !(Ascii(username) && Ascii(cfg.appUser) && Ascii(password) && Ascii(cfg.appPassword)) then ServerError
    else HttpError(401, "Invalid credentials")
  }

  // ---------------------------------------------------------------------
  // The gate in front of every route
  // ---------------------------------------------------------------------

  /** `SessionAuthGateMiddleware` settings. */
  datatype Gate = Gate(openApiPaths: set<string>, protectSpa: bool, openSpaPrefixes: seq<string>)

  /** The gate as installed: the three auth endpoints open, the single-page
      application not protected, assets and static files open. */
  const DefaultGate := Gate({"/api/login", "/api/logout", "/api/auth/status"}, false, ["/assets/", "/static/"])

  /** `path.startswith(prefixes)` for a tuple of prefixes. */
  predicate StartsWithAny(path: string, prefixes: seq<string>) {
    exists i :: 0 <= i < |prefixes| && StartsWith(path, prefixes[i])
  }

  /** `dispatch`: `Ok` passes the request on, `Err` answers it with 401. */
  function Dispatch(gate: Gate, path: string, session: map<string, Json>): (r: Result<(), HttpError>)
    ensures r.Err? ==> r.error == NotAuthenticated
    ensures StartsWithAny(path, gate.openSpaPrefixes) ==> r.Ok?
    ensures !StartsWithAny(path, gate.openSpaPrefixes) && StartsWith(path, "/api/") ==>
              (r.Ok? <==> path in gate.openApiPaths || Authed(session))
    ensures !StartsWithAny(path, gate.openSpaPrefixes) && !StartsWith(path, "/api/") ==>
              (r.Ok? <==> !gate.protectSpa || Authed(session))
  {
    if StartsWithAny(path, gate.openSpaPrefixes) then Ok(())
    else if StartsWith(path, "/api/") then
      if path in gate.openApiPaths || Authed(session) then Ok(()) else Err(NotAuthenticated)
    else if gate.protectSpa then
      if Authed(session) then Ok(()) else Err(NotAuthenticated)
    else Ok(())
  }

  /** An authenticated session passes the gate everywhere; an empty one (after
      logout) is refused on every API path outside the open set and outside
      the open prefixes. */
  lemma GateAfterLoginAndLogout(gate: Gate, path: string)
    ensures Dispatch(gate, path, map["authed" := JBool(true)]).Ok?
    ensures (StartsWith(path, "/api/") && path !in gate.openApiPaths && !StartsWithAny(path, gate.openSpaPrefixes))
            ==> Dispatch(gate, path, map[]).Err?
  {
  }

  /** The status endpoint and the gate agree on who is logged in: in required
      mode, a protected API path passes exactly when the status says `authed`. */
  lemma StatusMatchesGate(cfg: Config, gate: Gate, path: string, session: map<string, Json>)
    requires AuthEnabled(cfg)
    requires StartsWith(path, "/api/") && path !in gate.openApiPaths && !StartsWithAny(path, gate.openSpaPrefixes)
    ensures Dispatch(gate, path, session).Ok? <==> Status(cfg, session).authed == Some(true)
  {
  }

  /** The default gate's open paths all lie under `/api/`, and its asset
      prefixes are never API paths, so none of them is ever refused. */
  lemma DefaultGateOpenPaths(session: map<string, Json>)
    ensures Dispatch(DefaultGate, "/api/login", session).Ok?
    ensures Dispatch(DefaultGate, "/api/logout", session).Ok?
    ensures Dispatch(DefaultGate, "/api/auth/status", session).Ok?
    ensures forall path :: StartsWith(path, "/assets/") ==> Dispatch(DefaultGate, path, session).Ok?
  {
    forall path | StartsWith(path, "/assets/") ensures Dispatch(DefaultGate, path, session).Ok? {
      assert StartsWith(path, DefaultGate.openSpaPrefixes[0]);
    }
  }
}
