/**
 * The migration router (src/microservices/proxy/index.js): it reads its
 * configuration from the environment once, refuses to start when a required
 * target is missing, and for every request whose path is under /api/movies
 * picks the monolith or the movies service and forwards the request there
 * with its path unchanged.
 *
 * Math.random() is not modelled: the draw `r`, a real number in [0, 100)
 * (Math.random() * 100), is a parameter, which makes routing deterministic.
 */
module MigrationProxy {
  import opened Wrappers
  import opened JsNumbers

  /** The four environment variables the router reads; None when unset. */
  datatype ProxyEnv = ProxyEnv(
    monolithUrl: Option<string>,
    moviesServiceUrl: Option<string>,
    gradualMigration: Option<string>,
    migrationPercent: Option<string>)

  /** JavaScript truthiness of an environment value: set and not the empty string. */
  predicate Truthy(v: Option<string>) {
    v.Some? && v.value != ""
  }

  /** GRADUAL_MIGRATION: on exactly when the variable is the string "true". */
  function GradualMigration(env: ProxyEnv): (on: bool)
    ensures on <==> env.gradualMigration == Some("true")
  {
    match env.gradualMigration
    case Some(v) => v == "true"
    case None => false
  }

  /**
   * MOVIES_MIGRATION_PERCENT: parseInt(v, 10) || 0. An unset variable reads as
   * the string "undefined", so as NaN; NaN and 0 both become 0. The value is not
   * clamped to [0, 100].
   */
  function MigrationPercent(env: ProxyEnv): (p: int)
    ensures p != 0 ==> env.migrationPercent.Some? && ParseInt10(env.migrationPercent.value) == Some(p)
    ensures env.migrationPercent.Some? && ParseInt10(env.migrationPercent.value).Some? ==>
              p == ParseInt10(env.migrationPercent.value).value
  {
    match env.migrationPercent
    case None => 0
    case Some(v) =>
      match ParseInt10(v)
      case None => 0
      case Some(n) => n
  }

  /** A router whose configuration passed both startup guards. */
  datatype Router = Router(
    monolithUrl: string,
    moviesServiceUrl: Option<string>,
    gradualMigration: bool,
    migrationPercent: int)
  {
    /** What the startup guards establish for the lifetime of the process. */
    predicate Valid() {
      monolithUrl != "" &&
      (gradualMigration ==> moviesServiceUrl.Some? && moviesServiceUrl.value != "")
    }
  }

  datatype StartupError = MonolithUrlRequired | MoviesServiceUrlRequired

  /** Module initialisation: either a router that can serve requests or the thrown error. */
  datatype Startup = Started(router: Router) | Failed(error: StartupError)

  /**
   * Startup: the monolith URL must be truthy; the movies-service URL must be
   * truthy too when gradual migration is on. The monolith check comes first.
   */
  function Start(env: ProxyEnv): (s: Startup)
    ensures s.Started? ==> s.router.Valid()
    ensures s == Failed(MonolithUrlRequired) <==> !Truthy(env.monolithUrl)
    ensures s == Failed(MoviesServiceUrlRequired) <==>
              Truthy(env.monolithUrl) && env.gradualMigration == Some("true") && !Truthy(env.moviesServiceUrl)
    ensures s.Started? ==>
              && Some(s.router.monolithUrl) == env.monolithUrl
              && s.router.moviesServiceUrl == env.moviesServiceUrl
              && s.router.gradualMigration == (env.gradualMigration == Some("true"))
              && s.router.migrationPercent == MigrationPercent(env)
  {
    var gradual := GradualMigration(env);
    if !Truthy(env.monolithUrl) then
      Failed(MonolithUrlRequired)
    else if gradual && !Truthy(env.moviesServiceUrl) then
      Failed(MoviesServiceUrlRequired)
    else
      Started(Router(env.monolithUrl.value, env.moviesServiceUrl, gradual, MigrationPercent(env)))
  }

  /** The two backends a request can be sent to. */
  datatype Backend = Monolith | MoviesService

  /**
   * The routing decision for one request: with gradual migration off, always
   * the monolith; with it on, the movies service exactly when the draw is below
   * the percentage.
   */
  function Choose(router: Router, r: real): (b: Backend)
    ensures b == MoviesService <==> router.gradualMigration && r < router.migrationPercent as real
  {
    if !router.gradualMigration then Monolith
    else if r < router.migrationPercent as real then MoviesService
    else Monolith
  }

  /** The URL a backend stands for in a started router. */
  function UrlOf(router: Router, b: Backend): (url: string)
    requires router.Valid()
    requires b == MoviesService ==> router.gradualMigration
    ensures url != ""
  {
    match b
    case Monolith => router.monolithUrl
    case MoviesService => router.moviesServiceUrl.value
  }

  /** The proxy target chosen for one request with draw `r`. */
  function SelectTarget(router: Router, r: real): (target: string)
    requires router.Valid()
    ensures target != ""
    ensures target == router.monolithUrl || Some(target) == router.moviesServiceUrl
  {
    UrlOf(router, Choose(router, r))
  }

  lemma DisabledAlwaysMonolith(router: Router, r: real)
    requires router.Valid() && !router.gradualMigration
    ensures Choose(router, r) == Monolith
    ensures SelectTarget(router, r) == router.monolithUrl
  {
  }

  lemma EnabledSplitsOnDraw(router: Router, r: real)
    requires router.Valid() && router.gradualMigration
    ensures Choose(router, r) == MoviesService <==> r < router.migrationPercent as real
    ensures SelectTarget(router, r) ==
              if r < router.migrationPercent as real then router.moviesServiceUrl.value else router.monolithUrl
  {
  }

  /** A percentage of 0 or below sends every draw in [0, 100) to the monolith. */
  lemma PercentAtMostZeroAllMonolith(router: Router, r: real)
    requires router.Valid() && router.migrationPercent <= 0
    requires 0.0 <= r < 100.0
    ensures Choose(router, r) == Monolith
    ensures SelectTarget(router, r) == router.monolithUrl
  {
  }

  /** With migration on, a percentage of 100 or above sends every draw in [0, 100) to the movies service. */
  lemma PercentAtLeastHundredAllMovies(router: Router, r: real)
    requires router.Valid() && router.gradualMigration && router.migrationPercent >= 100
    requires 0.0 <= r < 100.0
    ensures Choose(router, r) == MoviesService
    ensures SelectTarget(router, r) == router.moviesServiceUrl.value
  {
  }

  /** Number of the draws 0, 1, ..., n - 1 that go to the movies service. */
  function MoviesDraws(router: Router, n: nat): nat
  {
    if n == 0 then 0
    else MoviesDraws(router, n - 1) + (if Choose(router, (n - 1) as real) == MoviesService then 1 else 0)
  }

  function Clamp(p: int, lo: int, hi: int): int
    requires lo <= hi
  {
    if p < lo then lo else if p > hi then hi else p
  }

  /**
   * The share of traffic: of the n evenly spaced draws 0, 1, ..., n - 1, exactly
   * the percentage (clamped to [0, n]) go to the movies service when migration is
   * on, and none when it is off. For n = 100 this is the percentage itself.
   */
  lemma {:induction false} MoviesShare(router: Router, n: nat)
    ensures MoviesDraws(router, n) ==
              if router.gradualMigration then Clamp(router.migrationPercent, 0, n) else 0
  {
    if n > 0 {
      MoviesShare(router, n - 1);
    }
  }

  /**
   * The path predicate of the route, the regular expression ^/api/movies(/.*)?$
   * read as a set of strings: "/api/movies" itself, or "/api/movies/" followed by
   * anything without a line terminator ('.' does not match one).
   */
  const MoviesRoot: string := "/api/movies"

  predicate IsLineTerminator(c: char) {
    c == '\n' || c == '\r' || c == '\U{2028}' || c == '\U{2029}'
  }

  ghost predicate InMoviesRoute(path: string) {
    path == MoviesRoot ||
    (MoviesRoot + "/" <= path &&
     forall i :: |MoviesRoot| < i < |path| ==> !IsLineTerminator(path[i]))
  }

  /** Matches `.*$` : consumes characters up to the end, failing on a line terminator. */
  function MatchDotStarEnd(s: string): (b: bool)
    ensures b <==> forall i :: 0 <= i < |s| ==> !IsLineTerminator(s[i])
  {
    if s == [] then true
    else if IsLineTerminator(s[0]) then false
    else MatchDotStarEnd(s[1..])
  }

  /** Matches the literal prefix, then the optional group (/.*)? anchored at the end. */
  function MatchesMoviesRoute(path: string): (b: bool)
    ensures b <==> InMoviesRoute(path)
  {
    var n := |MoviesRoot|;
    if |path| < n || path[..n] != MoviesRoot then false
    else if |path| == n then true
    else path[n] == '/' && MatchDotStarEnd(path[n + 1..])
  }

  /** Every path under the route matches, as long as it holds no line terminator. */
  lemma RouteMatchesSubpaths(rest: string)
    requires forall i :: 0 <= i < |rest| ==> !IsLineTerminator(rest[i])
    ensures MatchesMoviesRoute(MoviesRoot + "/" + rest)
  {
    var p := MoviesRoot + "/" + rest;
    assert p[..|MoviesRoot|] == MoviesRoot;
    assert p[|MoviesRoot|] == '/';
    assert p[|MoviesRoot| + 1..] == rest;
  }

  /** The route itself and its directory form match. */
  lemma RouteMatchesExamples()
    ensures MatchesMoviesRoute("/api/movies")
    ensures MatchesMoviesRoute("/api/movies/")
  {
    RouteMatchesSubpaths("");
    assert MoviesRoot + "/" + "" == "/api/movies/";
  }

  /** A longer word, a shorter word and another resource do not match. */
  lemma RouteRejectsExamples()
    ensures !MatchesMoviesRoute("/api/moviesX")
    ensures !MatchesMoviesRoute("/api/movie")
    ensures !MatchesMoviesRoute("/api/users")
  {
    assert "/api/moviesX"[..11] == MoviesRoot;
    assert "/api/users"[5] != MoviesRoot[5];
  }

  /** The proxy's pathRewrite option: the path is forwarded as it came. */
  function RewritePath(path: string): string
  {
    path
  }

  /** What http-proxy-middleware is asked to do for one request. */
  datatype Forward = Forward(target: string, path: string, changeOrigin: bool)

  /**
   * One request through the route: None when the path does not match (the
   * request goes on to the next handler), otherwise the forward to the chosen
   * target with the path unchanged and changeOrigin set.
   */
  function Handle(router: Router, r: real, path: string): (f: Option<Forward>)
    requires router.Valid()
    ensures f.Some? <==> InMoviesRoute(path)
    ensures f.Some? ==> f.value.path == path && f.value.changeOrigin
    ensures f.Some? ==> f.value.target == router.monolithUrl || Some(f.value.target) == router.moviesServiceUrl
    ensures f.Some? && !router.gradualMigration ==> f.value.target == router.monolithUrl
    ensures f.Some? ==> f.value.target == SelectTarget(router, r)
  {
    if MatchesMoviesRoute(path) then
      Some(Forward(SelectTarget(router, r), RewritePath(path), true))
    else
      None
  }

  /**
   * The whole router: a request is forwarded only by a router that started, and
   * then only to one of the two configured, non-empty URLs.
   */
  lemma {:induction false} ServedOnlyAfterStartup(env: ProxyEnv, r: real, path: string)
    ensures !Truthy(env.monolithUrl) ==> Start(env).Failed?
    ensures env.gradualMigration == Some("true") && !Truthy(env.moviesServiceUrl) ==> Start(env).Failed?
    ensures Start(env).Started? && InMoviesRoute(path) ==>
              var f := Handle(Start(env).router, r, path);
              f.Some? && f.value.target != "" &&
              f.value.target == SelectTarget(Start(env).router, r) &&
              (Some(f.value.target) == env.monolithUrl || Some(f.value.target) == env.moviesServiceUrl)
  {
    if Start(env).Started? && InMoviesRoute(path) {
      var router := Start(env).router;
      var f := Handle(router, r, path);
      assert f.Some?;
      assert SelectTarget(router, r) == f.value.target;
    }
  }

  /** Gradual migration with a missing movies-service URL is refused; with migration off it is accepted. */
  lemma MoviesUrlOnlyNeededWhenMigrating(env: ProxyEnv)
    requires Truthy(env.monolithUrl) && !Truthy(env.moviesServiceUrl)
    ensures Start(env).Started? <==> env.gradualMigration != Some("true")
  {
  }

  /**
   * An unset percentage, or one whose first non-blank character is neither a
   * digit nor a sign (so that parseInt gives NaN), reads as 0.
   */
  lemma PercentDefaultsToZero(env: ProxyEnv)
    requires env.migrationPercent == None ||
             (var t := TrimStart(env.migrationPercent.value);
              t == [] || (!IsDigit(t[0]) && t[0] != '-' && t[0] != '+'))
    ensures MigrationPercent(env) == 0
  {
    if env.migrationPercent.Some? {
      ParseIntNaN(env.migrationPercent.value);
    }
  }

  /** parseInt stops at the first non-digit and skips leading blanks: " 30%" reads as 30. */
  lemma PercentWithPadding(env: ProxyEnv)
    requires env.migrationPercent == Some(" 30%")
    ensures MigrationPercent(env) == 30
  {
    var padded := [' '] + ['3', '0'] + ['%'];
    assert padded == " 30%" by {
      assert |padded| == 4 && padded[0] == ' ' && padded[1] == '3' && padded[2] == '0' && padded[3] == '%';
    }
    assert NatDigits(3) == ['3'];
    assert Decimal(30) == NatDigits(30) == ['3', '0'];
    assert IsJsWhitespace(' ');
    ParseIntIgnoresPadding([' '], 30, ['%']);
  }

  /**
   * Any numeric percentage is kept as parseInt reads it: leading blanks, an
   * optional sign, then the digits up to the first non-digit ("+25", "025" and
   * "25abc" all give 25).
   */
  lemma {:induction false} PercentReadsDigits(env: ProxyEnv, ws: string, sign: string, d: string, rest: string)
    requires forall i :: 0 <= i < |ws| ==> IsJsWhitespace(ws[i])
    requires sign == "" || sign == "-" || sign == "+"
    requires d != [] && forall i :: 0 <= i < |d| ==> IsDigit(d[i])
    requires rest == [] || !IsDigit(rest[0])
    requires env.migrationPercent == Some(ws + (sign + d + rest))
    ensures MigrationPercent(env) == (if sign == "-" then -(DigitsValue(d) as int) else DigitsValue(d) as int)
  {
    ParseIntReadsDigits(ws, sign, d, rest);
  }

  /** A percentage written in decimal is read back exactly, whatever its sign or size. */
  lemma PercentRoundTrip(env: ProxyEnv, n: int)
    requires env.migrationPercent == Some(Decimal(n))
    ensures MigrationPercent(env) == n
  {
    ParseIntDecimal(n);
  }
}
