/** The admin statistics route (app/api/admin/rate-limits/route.ts): an
    ordered authorisation classifier on the bearer token, then the sizes of
    both limiters after a sweep. */
module AdminRoute {
  import opened Wrappers
  import opened Strings
  import opened RateLimiter

  const BearerPrefix := "Bearer "

  /** The first check that fails, or the token that passed them all. */
  datatype AuthResult =
    | AuthorizationRequired      // 401: no `Bearer ` header
    | ConfigurationError         // 500: no session secret configured
    | InvalidToken               // 401: token empty or not prefixed by the secret
    | AdminAccessRequired        // 403: token names no admin
    | Authorized(token: string)  // 200

  function Status(a: AuthResult): int {
    match a
    case AuthorizationRequired => 401
    case ConfigurationError => 500
    case InvalidToken => 401
    case AdminAccessRequired => 403
    case Authorized(_) => 200
  }

  /** A non-empty header that starts with `Bearer `. */
  predicate HasBearer(authHeader: Option<string>) {
    authHeader.Some? && authHeader.value != "" && BearerPrefix <= authHeader.value
  }

  predicate NamesAdmin(token: string) {
    Contains(token, "admin") || Contains(token, "jaguar")
  }

  /** The authorisation checks of `GET`, in the route's order; the first
      failing one decides. */
  function Authorize(authHeader: Option<string>, sessionSecret: Option<string>): (r: AuthResult)
    ensures !HasBearer(authHeader) ==> r == AuthorizationRequired
    ensures HasBearer(authHeader) && (sessionSecret.None? || sessionSecret.value == "") ==>
      r == ConfigurationError
    ensures HasBearer(authHeader) && sessionSecret.Some? && sessionSecret.value != "" ==>
      var token := authHeader.value[|BearerPrefix|..];
      && (token == "" || !IsValidSessionToken(token, sessionSecret.value) ==> r == InvalidToken)
      && (token != "" && IsValidSessionToken(token, sessionSecret.value) && !NamesAdmin(token) ==>
            r == AdminAccessRequired)
      && (token != "" && IsValidSessionToken(token, sessionSecret.value) && NamesAdmin(token) ==>
            r == Authorized(token))
  {
    if !(authHeader.Some? && authHeader.value != "" && BearerPrefix <= authHeader.value) then
      AuthorizationRequired
    else
      var token := authHeader.value[7..];
      if sessionSecret.None? || sessionSecret.value == "" then ConfigurationError
      else if token == "" || !(sessionSecret.value <= token) then InvalidToken
      else if !Contains(token, "admin") && !Contains(token, "jaguar") then AdminAccessRequired
      else Authorized(token)
  }

  /** 200 exactly when all four checks pass, and then the token is the
      header minus `Bearer `, a valid session token naming an admin. */
  lemma AuthorizedIffAllChecksPass(authHeader: Option<string>, sessionSecret: Option<string>)
    ensures Status(Authorize(authHeader, sessionSecret)) == 200 <==>
      && HasBearer(authHeader)
      && sessionSecret.Some? && sessionSecret.value != ""
      && authHeader.value[|BearerPrefix|..] != ""
      && IsValidSessionToken(authHeader.value[|BearerPrefix|..], sessionSecret.value)
      && NamesAdmin(authHeader.value[|BearerPrefix|..])
    ensures Authorize(authHeader, sessionSecret).Authorized? ==>
      && authHeader.Some? && authHeader.value == BearerPrefix + Authorize(authHeader, sessionSecret).token
      && IsValidSessionToken(Authorize(authHeader, sessionSecret).token, sessionSecret.value)
  {
  }

  /** The answer of the route. */
  datatype AdminResponse =
    | Denied(status: int, error: string)
    | Report(authenticated: Stats, regular: Stats)

  function ErrorText(a: AuthResult): string {
    match a
    case AuthorizationRequired => "Authorization required"
    case ConfigurationError => "Server configuration error"
    case InvalidToken => "Invalid token"
    case AdminAccessRequired => "Admin access required"
    case Authorized(_) => ""
  }

  /** Live entries of a limiter at `now`: the windows not yet over. */
  function Live(l: Limiter, now: int): set<string> {
    set k | k in l.limits && !Expired(l.limits[k], now)
  }

  /** `GET /api/admin/rate-limits` at time `now`. Only an authorised call
      sweeps the limiters, and its counts are of live windows only. */
  function Get(s: Limiters, authHeader: Option<string>, sessionSecret: Option<string>, now: int)
    : (r: (Limiters, AdminResponse))
    ensures !Authorize(authHeader, sessionSecret).Authorized? ==>
      && r.0 == s
      && r.1 == Denied(Status(Authorize(authHeader, sessionSecret)), ErrorText(Authorize(authHeader, sessionSecret)))
    ensures Authorize(authHeader, sessionSecret).Authorized? ==>
      && r.1.Report?
      && r.1.authenticated.totalWallets == r.1.authenticated.activeEntries == |Live(s.authenticated, now)|
      && r.1.regular.totalWallets == r.1.regular.activeEntries == |Live(s.regular, now)|
      && r.0.authenticated.limits.Keys == Live(s.authenticated, now)
      && r.0.regular.limits.Keys == Live(s.regular, now)
      && r.0.authenticated == GetStats(s.authenticated, now).0
      && r.0.regular == GetStats(s.regular, now).0
    // the sweep keeps both configurations and every surviving window as it was
    ensures r.0.authenticated.cfg == s.authenticated.cfg && r.0.regular.cfg == s.regular.cfg
    ensures forall k :: k in r.0.authenticated.limits ==> r.0.authenticated.limits[k] == s.authenticated.limits[k]
    ensures forall k :: k in r.0.regular.limits ==> r.0.regular.limits[k] == s.regular.limits[k]
  {
    var a := Authorize(authHeader, sessionSecret);
    if !a.Authorized? then (s, Denied(Status(a), ErrorText(a)))
    else
      var (authenticated, nftStats) := GetStats(s.authenticated, now);
      var (regular, regularStats) := GetStats(s.regular, now);
      (Limiters(authenticated, regular), Report(nftStats, regularStats))
  }
}
