/**
 * The server's configuration (server/dashboard/config.py): each setting is
 * taken from the command line if given there, else from the environment, else
 * a default or a ValueError. The parsed command line and the environment are
 * inputs; Python's truthiness decides whether a command-line value counts as
 * given (an empty string or a port of 0 does not).
 */
module Config {
  import opened Wrappers
  import opened Text

  /** The process environment. */
  type Env = map<string, string>

  /**
   * The parsed command line. Options that were not given are None; the two
   * `append` options hold the values in the order they were given.
   */
  datatype Args = Args(
    port: Option<int>,
    busStopId: Option<seq<string>>,
    latLong: Option<string>,
    pirateApiKey: Option<string>,
    recyclingCalendarUrl: Option<string>,
    unifiHost: Option<string>,
    unifiUsername: Option<string>,
    unifiPassword: Option<string>,
    unifiMac: Option<seq<string>>)

  datatype ConfigError = ValueError(message: string)

  const DEFAULT_PORT := 8000

  /** A command-line string counts as given when it is present and non-empty. */
  predicate GivenText(o: Option<string>) {
    o.Some? && o.value != ""
  }

  /** A command-line number counts as given when it is present and non-zero. */
  predicate GivenInt(o: Option<int>) {
    o.Some? && o.value != 0
  }

  /** A repeated option counts as given when it was given at least once. */
  predicate GivenList(o: Option<seq<string>>) {
    o.Some? && o.value != []
  }

  /** The precedence every string setting follows: command line, then environment, then an error. */
  function Setting(cli: Option<string>, env: Env, key: string, missing: string): (r: Result<string, ConfigError>)
    ensures r.Success? <==> GivenText(cli) || key in env
    ensures GivenText(cli) ==> r.value == cli.value
    ensures !GivenText(cli) && key in env ==> r.value == env[key]
    ensures r.Failure? ==> r.error == ValueError(missing)
  {
    if GivenText(cli) then Success(cli.value)
    else if key in env then Success(env[key])
    else Failure(ValueError(missing))
  }

  /** `Config.port`: the command-line port, else `int(DASHBOARD_PORT)`, else 8000. */
  function Port(args: Args, env: Env): (r: Result<int, ConfigError>)
    ensures GivenInt(args.port) ==> r == Success(args.port.value)
    ensures !GivenInt(args.port) && "DASHBOARD_PORT" !in env ==> r == Success(DEFAULT_PORT)
    ensures !GivenInt(args.port) && "DASHBOARD_PORT" in env ==>
      (r.Success? <==> ParseInt(env["DASHBOARD_PORT"]).Some?) &&
      (r.Success? ==> r.value == ParseInt(env["DASHBOARD_PORT"]).value)
  {
    if GivenInt(args.port) then Success(args.port.value)
    else if "DASHBOARD_PORT" in env then
      match ParseInt(env["DASHBOARD_PORT"])
      case Some(p) => Success(p)
      case None => Failure(ValueError("invalid literal for int() with base 10: '" + env["DASHBOARD_PORT"] + "'"))
    else Success(DEFAULT_PORT)
  }

  /** A port written into the environment in decimal is the port used, unless the command line gives one. */
  lemma PortFromEnvironment(args: Args, env: Env, p: int)
    requires !GivenInt(args.port)
    requires "DASHBOARD_PORT" in env && env["DASHBOARD_PORT"] == IntText(p)
    ensures Port(args, env) == Success(p)
  {
    ParseIntText(p);
  }

  /** `-p 0` is not a port: zero is falsy, so it is treated exactly as if no port were given. */
  lemma PortZeroIsNotGiven(args: Args, env: Env)
    requires args.port == Some(0)
    ensures Port(args, env) == Port(args.(port := None), env)
  {
  }

  /** `Config.bus_stop_ids`: the `-b` values, else BUS_STOP_IDS split on commas, else a ValueError. */
  function BusStopIds(args: Args, env: Env): (r: Result<seq<string>, ConfigError>)
    ensures r.Success? <==> GivenList(args.busStopId) || "BUS_STOP_IDS" in env
    ensures GivenList(args.busStopId) ==> r.value == args.busStopId.value
    ensures r.Success? ==> |r.value| > 0
    ensures r.Failure? ==> r.error == ValueError("No bus stop IDs provided")
  {
    if GivenList(args.busStopId) then Success(args.busStopId.value)
    else if "BUS_STOP_IDS" in env then Success(Split(env["BUS_STOP_IDS"], ','))
    else Failure(ValueError("No bus stop IDs provided"))
  }

  /**
   * The environment list round-trips: its pieces joined with commas give back
   * the variable, and a variable written as the comma-join of comma-free IDs
   * gives back those IDs.
   */
  lemma BusStopIdsFromEnvironment(args: Args, env: Env)
    requires !GivenList(args.busStopId) && "BUS_STOP_IDS" in env
    ensures BusStopIds(args, env).Success?
    ensures Join(BusStopIds(args, env).value, ',') == env["BUS_STOP_IDS"]
    ensures |BusStopIds(args, env).value| == Occurrences(env["BUS_STOP_IDS"], ',') + 1
  {
    JoinSplit(env["BUS_STOP_IDS"], ',');
    SplitCount(env["BUS_STOP_IDS"], ',');
  }

  lemma BusStopIdsJoined(args: Args, env: Env, ids: seq<string>)
    requires !GivenList(args.busStopId)
    requires |ids| > 0 && forall k | 0 <= k < |ids| :: ',' !in ids[k]
    requires "BUS_STOP_IDS" in env && env["BUS_STOP_IDS"] == Join(ids, ',')
    ensures BusStopIds(args, env) == Success(ids)
  {
    SplitJoin(ids, ',');
  }

  /** `Config.lat_long`. */
  function LatLong(args: Args, env: Env): (r: Result<string, ConfigError>)
    ensures r.Success? <==> GivenText(args.latLong) || "LAT_LONG" in env
    ensures GivenText(args.latLong) ==> r.value == args.latLong.value
    ensures !GivenText(args.latLong) && "LAT_LONG" in env ==> r.value == env["LAT_LONG"]
  {
    Setting(args.latLong, env, "LAT_LONG", "No lat-long provided")
  }

  /** `Config.pirate_api_key`. */
  function PirateApiKey(args: Args, env: Env): (r: Result<string, ConfigError>)
    ensures r.Success? <==> GivenText(args.pirateApiKey) || "PIRATE_API_KEY" in env
    ensures GivenText(args.pirateApiKey) ==> r.value == args.pirateApiKey.value
    ensures !GivenText(args.pirateApiKey) && "PIRATE_API_KEY" in env ==> r.value == env["PIRATE_API_KEY"]
  {
    Setting(args.pirateApiKey, env, "PIRATE_API_KEY", "No Pirate API Key provided")
  }

  /** `Config.unifi_hostname`. */
  function UnifiHostname(args: Args, env: Env): (r: Result<string, ConfigError>)
    ensures r.Success? <==> GivenText(args.unifiHost) || "UNIFI_HOST" in env
    ensures GivenText(args.unifiHost) ==> r.value == args.unifiHost.value
    ensures !GivenText(args.unifiHost) && "UNIFI_HOST" in env ==> r.value == env["UNIFI_HOST"]
  {
    Setting(args.unifiHost, env, "UNIFI_HOST", "No Unifi Controller hostname provided")
  }

  /** `Config.unifi_username`. */
  function UnifiUsername(args: Args, env: Env): (r: Result<string, ConfigError>)
    ensures r.Success? <==> GivenText(args.unifiUsername) || "UNIFI_USERNAME" in env
    ensures GivenText(args.unifiUsername) ==> r.value == args.unifiUsername.value
    ensures !GivenText(args.unifiUsername) && "UNIFI_USERNAME" in env ==> r.value == env["UNIFI_USERNAME"]
  {
    Setting(args.unifiUsername, env, "UNIFI_USERNAME", "No Unifi Controller username provided")
  }

  /** `Config.unifi_password`. */
  function UnifiPassword(args: Args, env: Env): (r: Result<string, ConfigError>)
    ensures r.Success? <==> GivenText(args.unifiPassword) || "UNIFI_PASSWORD" in env
    ensures GivenText(args.unifiPassword) ==> r.value == args.unifiPassword.value
    ensures !GivenText(args.unifiPassword) && "UNIFI_PASSWORD" in env ==> r.value == env["UNIFI_PASSWORD"]
  {
    Setting(args.unifiPassword, env, "UNIFI_PASSWORD", "No Unifi Controller password provided")
  }

  /**
   * `Config.recycling_calendar_url` as written: the guard tests the lat-long
   * option, so with `-l` given the (possibly absent) `-r` value is returned and
   * the environment is never read.
   */
  function RecyclingCalendarUrlAsWritten(args: Args, env: Env): (r: Result<Option<string>, ConfigError>)
    ensures GivenText(args.latLong) ==> r == Success(args.recyclingCalendarUrl)
    ensures !GivenText(args.latLong) && "RECYCLING_CALENDAR_URL" in env ==>
      r == Success(Some(env["RECYCLING_CALENDAR_URL"]))
    ensures !GivenText(args.latLong) && "RECYCLING_CALENDAR_URL" !in env ==>
      r == Failure(ValueError("No recycling calendar provided"))
  {
    if GivenText(args.latLong) then Success(args.recyclingCalendarUrl)
    else if "RECYCLING_CALENDAR_URL" in env then Success(Some(env["RECYCLING_CALENDAR_URL"]))
    else Failure(ValueError("No recycling calendar provided"))
  }

  /** The recycling calendar URL with the guard on its own option, like every other setting. */
  function RecyclingCalendarUrl(args: Args, env: Env): (r: Result<string, ConfigError>)
    ensures r.Success? <==> GivenText(args.recyclingCalendarUrl) || "RECYCLING_CALENDAR_URL" in env
    ensures GivenText(args.recyclingCalendarUrl) ==> r.value == args.recyclingCalendarUrl.value
    ensures !GivenText(args.recyclingCalendarUrl) && "RECYCLING_CALENDAR_URL" in env ==>
      r.value == env["RECYCLING_CALENDAR_URL"]
  {
    Setting(args.recyclingCalendarUrl, env, "RECYCLING_CALENDAR_URL", "No recycling calendar provided")
  }

  /**
   * The two agree whenever `-l` and `-r` are both given or both absent, and
   * neither given: the quirk only shows when exactly one of them is.
   */
  lemma RecyclingCalendarUrlAgreement(args: Args, env: Env)
    requires GivenText(args.latLong) == GivenText(args.recyclingCalendarUrl)
    ensures RecyclingCalendarUrlAsWritten(args, env).Success? <==> RecyclingCalendarUrl(args, env).Success?
    ensures RecyclingCalendarUrlAsWritten(args, env).Success? ==>
      RecyclingCalendarUrlAsWritten(args, env).value == Some(RecyclingCalendarUrl(args, env).value)
  {
  }

  /** `-l` given, `-r` not, URL in the environment: the URL is lost. */
  lemma RecyclingCalendarUrlLostWithLatLong()
    ensures var args := Args(None, None, Some("51.75,-1.25"), None, None, None, None, None, None);
      var env := map["RECYCLING_CALENDAR_URL" := "https://example.org/bins.ics"];
      && RecyclingCalendarUrlAsWritten(args, env) == Success(None)
      && RecyclingCalendarUrl(args, env) == Success("https://example.org/bins.ics")
  {
  }

  /** `-r` given, `-l` not, nothing in the environment: the given URL is refused. */
  lemma RecyclingCalendarUrlRefusedWithoutLatLong()
    ensures var args := Args(None, None, None, None, Some("https://example.org/bins.ics"), None, None, None, None);
      var env: Env := map[];
      && RecyclingCalendarUrlAsWritten(args, env).Failure?
      && RecyclingCalendarUrl(args, env) == Success("https://example.org/bins.ics")
  {
  }

  /** `-r` given, `-l` not, URL also in the environment: the given URL is ignored for the environment's. */
  lemma RecyclingCalendarUrlIgnoredWithoutLatLong()
    ensures var args := Args(None, None, None, None, Some("https://example.org/cli.ics"), None, None, None, None);
      var env := map["RECYCLING_CALENDAR_URL" := "https://example.org/env.ics"];
      && RecyclingCalendarUrlAsWritten(args, env) == Success(Some("https://example.org/env.ics"))
      && RecyclingCalendarUrl(args, env) == Success("https://example.org/cli.ics")
  {
  }

  /** `logging.getLevelName` on a name: the numeric level of each registered name. */
  function LevelNumber(name: string): (level: Option<int>)
    ensures level.Some? ==> level.value in {0, 10, 20, 30, 40, 50}
  {
    if name == "CRITICAL" || name == "FATAL" then Some(50)
    else if name == "ERROR" then Some(40)
    else if name == "WARNING" || name == "WARN" then Some(30)
    else if name == "INFO" then Some(20)
    else if name == "DEBUG" then Some(10)
    else if name == "NOTSET" then Some(0)
    else None
  }

  /** `Config.log_level`: LOG_LEVEL, default INFO, looked up by name; an unknown name is a ValueError. */
  function LogLevel(env: Env): (r: Result<int, ConfigError>)
    ensures "LOG_LEVEL" !in env ==> r == Success(20)
    ensures "LOG_LEVEL" in env ==> (r.Success? <==> LevelNumber(env["LOG_LEVEL"]).Some?)
    ensures "LOG_LEVEL" in env && r.Success? ==> r.value == LevelNumber(env["LOG_LEVEL"]).value
    ensures r.Failure? ==> r.error == ValueError("Invalid LOG_LEVEL: " + env["LOG_LEVEL"])
  {
    var name := if "LOG_LEVEL" in env then env["LOG_LEVEL"] else "INFO";
    match LevelNumber(name)
    case Some(level) => Success(level)
    case None => Failure(ValueError("Invalid LOG_LEVEL: " + name))
  }

  /** Level names are case-sensitive: lower-case spellings are refused. */
  lemma LogLevelCaseSensitive()
    ensures LogLevel(map["LOG_LEVEL" := "debug"]).Failure?
    ensures LogLevel(map["LOG_LEVEL" := "DEBUG"]) == Success(10)
  {
  }

  /** `name, mac = pair.split('=')`: exactly two pieces, or a ValueError. */
  function SplitPair(pair: string): (r: Result<(string, string), ConfigError>)
    ensures r.Success? <==> Occurrences(pair, '=') == 1
    ensures r.Success? ==> r.value.0 + "=" + r.value.1 == pair
    ensures r.Success? ==> '=' !in r.value.0 && '=' !in r.value.1
  {
    var parts := Split(pair, '=');
    SplitCount(pair, '=');
    JoinSplit(pair, '=');
    if |parts| == 2 then
      assert Join(parts, '=') == parts[0] + ['='] + parts[1];
      Success((parts[0], parts[1]))
    else if |parts| < 2 then Failure(ValueError("not enough values to unpack (expected 2, got " + Decimal(|parts|) + ")"))
    else Failure(ValueError("too many values to unpack (expected 2)"))
  }

  /** The `macs` dict the loop builds: pairs applied in order, the first bad pair raising. */
  function MacTable(pairs: seq<string>): (r: Result<map<string, string>, ConfigError>)
    ensures r.Success? ==> forall name | name in r.value :: '=' !in name && '=' !in r.value[name]
  {
    if pairs == [] then Success(map[])
    else
      match MacTable(pairs[..|pairs| - 1])
      case Failure(e) => Failure(e)
      case Success(macs) =>
        match SplitPair(pairs[|pairs| - 1])
        case Failure(e) => Failure(e)
        case Success(nameMac) => Success(macs[nameMac.0 := nameMac.1])
  }

  /** A pair with exactly one `=`. */
  predicate ValidPair(pair: string) {
    Occurrences(pair, '=') == 1
  }

  /** The table is built exactly when every pair has exactly one `=`. */
  lemma {:induction false} MacTableSucceeds(pairs: seq<string>)
    ensures MacTable(pairs).Success? <==> forall i | 0 <= i < |pairs| :: ValidPair(pairs[i])
  {
    if pairs != [] {
      var front := pairs[..|pairs| - 1];
      MacTableSucceeds(front);
      assert forall i | 0 <= i < |front| :: front[i] == pairs[i];
    }
  }

  /** The name of a valid pair. */
  function PairName(pair: string): string
    requires ValidPair(pair)
  {
    SplitPair(pair).value.0
  }

  /** The MAC of a valid pair. */
  function PairMac(pair: string): string
    requires ValidPair(pair)
  {
    SplitPair(pair).value.1
  }

  /** The keys of the table are the names of the pairs: a name is a key exactly when some pair carries it. */
  lemma {:induction false} MacTableKeys(pairs: seq<string>)
    requires forall i | 0 <= i < |pairs| :: ValidPair(pairs[i])
    ensures MacTable(pairs).Success?
    ensures forall name :: name in MacTable(pairs).value <==> exists i | 0 <= i < |pairs| :: PairName(pairs[i]) == name
  {
    MacTableSucceeds(pairs);
    if pairs != [] {
      var n := |pairs| - 1;
      var front := pairs[..n];
      assert forall i | 0 <= i < n :: front[i] == pairs[i];
      MacTableKeys(front);
      forall name | exists i | 0 <= i < |pairs| :: PairName(pairs[i]) == name
        ensures name in MacTable(pairs).value
      {
        var i :| 0 <= i < |pairs| && PairName(pairs[i]) == name;
        if i < n {
          assert PairName(front[i]) == name;
        }
      }
    }
  }

  /** A name maps to the MAC of the last pair that names it: a later duplicate overrides. */
  lemma {:induction false} MacTableLastWins(pairs: seq<string>, i: nat)
    requires forall j | 0 <= j < |pairs| :: ValidPair(pairs[j])
    requires i < |pairs|
    requires forall j | i < j < |pairs| :: PairName(pairs[j]) != PairName(pairs[i])
    ensures MacTable(pairs).Success?
    ensures PairName(pairs[i]) in MacTable(pairs).value
    ensures MacTable(pairs).value[PairName(pairs[i])] == PairMac(pairs[i])
  {
    MacTableSucceeds(pairs);
    var n := |pairs| - 1;
    var front := pairs[..n];
    assert forall j | 0 <= j < n :: front[j] == pairs[j];
    MacTableSucceeds(front);
    if i < n {
      MacTableLastWins(front, i);
    }
  }

  /** The loop over pairs, assigning one entry per pair. */
  method BuildMacs(pairs: seq<string>) returns (r: Result<map<string, string>, ConfigError>)
    ensures r == MacTable(pairs)
  {
    var macs: map<string, string> := map[];
    for k := 0 to |pairs|
      invariant MacTable(pairs[..k]) == Success(macs)
    {
      assert pairs[..k + 1][..k] == pairs[..k];
      var nameMac := SplitPair(pairs[k]);
      if nameMac.Failure? {
        MacTablePrefixFailure(pairs, k + 1);
        return Failure(nameMac.error);
      }
      macs := macs[nameMac.value.0 := nameMac.value.1];
    }
    assert pairs[..|pairs|] == pairs;
    r := Success(macs);
  }

  /** A failure in a prefix is the failure of the whole list. */
  lemma {:induction false} MacTablePrefixFailure(pairs: seq<string>, k: nat)
    requires k <= |pairs|
    requires MacTable(pairs[..k]).Failure?
    ensures MacTable(pairs) == MacTable(pairs[..k])
    decreases |pairs| - k
  {
    if k < |pairs| {
      assert pairs[..k + 1][..k] == pairs[..k];
      MacTablePrefixFailure(pairs, k + 1);
    } else {
      assert pairs[..k] == pairs;
    }
  }

  /** `Config.unifi_macs`: the `-m` pairs, else UNIFI_MACS split on commas, else a ValueError. */
  method UnifiMacs(args: Args, env: Env) returns (r: Result<map<string, string>, ConfigError>)
    ensures GivenList(args.unifiMac) ==> r == MacTable(args.unifiMac.value)
    ensures !GivenList(args.unifiMac) && "UNIFI_MACS" in env ==> r == MacTable(Split(env["UNIFI_MACS"], ','))
    ensures !GivenList(args.unifiMac) && "UNIFI_MACS" !in env ==>
      r == Failure(ValueError("No Unifi Controller macs to monitor provided"))
  {
    if GivenList(args.unifiMac) {
      r := BuildMacs(args.unifiMac.value);
    } else if "UNIFI_MACS" in env {
      r := BuildMacs(Split(env["UNIFI_MACS"], ','));
    } else {
      r := Failure(ValueError("No Unifi Controller macs to monitor provided"));
    }
  }

  /** An empty UNIFI_MACS is one empty pair, which has no `=`: a ValueError. */
  lemma EmptyMacListFails()
    ensures MacTable(Split("", ',')).Failure?
  {
    assert Split("", ',') == [""];
    assert Occurrences("", '=') == 0;
  }
}
