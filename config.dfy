/** The central configuration: every setting read from the environment with
    its default, the default database URL composed from the other database
    settings, and `validate`'s check of the required database settings.

    The process environment (after `.env` has been loaded) is a parameter:
    a map from variable name to value. */
module Config {
  import opened Common

  const CsoApiBase: string := "https://data.cso.ie"
  const PropertyRegisterUrl: string := "https://www.propertypriceregister.ie"
  const EcbApiBase: string := "https://sdw.ecb.europa.eu"

  /** `os.getenv(name, default)`: a variable that is set wins, even when it
      is the empty string. */
  function GetEnv(env: map<string, string>, name: string, default: string): (v: string)
    ensures name in env ==> v == env[name]
    ensures name !in env ==> v == default
  {
    if name in env then env[name] else default
  }

  /** Python's `int()` of a string of decimal digits with an optional sign;
      None where it raises ValueError. */
  function IntOf(s: string): (r: Option<int>)
    ensures r.Some? ==> s != []
    ensures r.Some? <==> (s != [] && AllDigits(s)) || (|s| > 1 && (s[0] == '-' || s[0] == '+') && AllDigits(s[1..]))
    ensures r.Some? && s[0] == '-' ==> r.value <= 0
    ensures r.Some? && s[0] != '-' ==> r.value >= 0
  {
    if s != [] && (s[0] == '-' || s[0] == '+') then
      (if |s| > 1 && AllDigits(s[1..]) then Some(if s[0] == '-' then 0 - DigitsValue(s[1..]) else DigitsValue(s[1..]))
       else None)
    else if s != [] && AllDigits(s) then Some(DigitsValue(s))
    else None
  }

  /** Reading back the rendering of an integer gives the integer. */
  lemma IntOfIntToString(i: int)
    ensures IntOf(IntToString(i)) == Some(i)
  {
    if i < 0 {
      var n: nat := -i;
      IntOfNegated(n);
      assert IntToString(i) == "-" + NatToString(n) && 0 - n == i;
    } else {
      IntOfDigits(i);
      assert IntToString(i) == NatToString(i);
    }
  }

  /** A minus sign followed by the digits of `n` reads back as `-n`. */
  lemma IntOfNegated(n: nat)
    ensures IntOf("-" + NatToString(n)) == Some(0 - n)
  {
    var d := NatToString(n);
    NatToStringValue(n);
    assert ("-" + d)[0] == '-' && ("-" + d)[1..] == d;
  }

  /** The digits of `n` read back as `n`. */
  lemma IntOfDigits(n: nat)
    ensures IntOf(NatToString(n)) == Some(n)
  {
    var d := NatToString(n);
    NatToStringValue(n);
    assert IsDigit(d[0]);
  }

  /** `int(os.getenv(name, default))`, where the default is an int. */
  function GetEnvInt(env: map<string, string>, name: string, default: int): (r: Option<int>)
    ensures name !in env ==> r == Some(default)
    ensures name in env ==> r == IntOf(env[name])
  {
    if name in env then IntOf(env[name]) else Some(default)
  }

  /** The values of `Config`'s settings once the class body has run. */
  datatype Settings = Settings(
    dbHost: string, dbPort: int, dbName: string, dbUser: string, dbPassword: string, dbSchema: string,
    databaseUrl: string, daftBaseUrl: string, userAgent: string,
    scrapeDelaySeconds: int, maxRetries: int, timeoutSeconds: int,
    environment: string, logLevel: string)

  /** The connection string built from the database settings. */
  function ComposedUrl(user: string, password: string, host: string, port: int, name: string): (u: string)
    ensures IsPrefix("postgresql://" + user + ":" + password + "@" + host + ":", u)
    ensures |u| >= |name| && u[|u| - |name|..] == name
  {
    var head := "postgresql://" + user + ":" + password + "@" + host + ":";
    var u := head + IntToString(port) + "/" + name;
    assert u[..|head|] == head;
    assert u[|u| - |name|..] == name;
    u
  }

  /** Evaluating the `Config` class body: every setting from the
      environment or its default; an integer setting that `int()` cannot
      read raises ValueError. */
  function LoadSettings(env: map<string, string>): (r: Result<Settings>)
    ensures r.Err? <==> GetEnvInt(env, "DB_PORT", 5432).None? ||
                        GetEnvInt(env, "SCRAPE_DELAY_SECONDS", 2).None? ||
                        GetEnvInt(env, "MAX_RETRIES", 3).None? ||
                        GetEnvInt(env, "TIMEOUT_SECONDS", 30).None?
    ensures r.Ok? ==> r.value.dbHost == GetEnv(env, "DB_HOST", "localhost") &&
                      r.value.dbName == GetEnv(env, "DB_NAME", "postgres") &&
                      r.value.dbUser == GetEnv(env, "DB_USER", "postgres") &&
                      r.value.dbPassword == GetEnv(env, "DB_PASSWORD", "") &&
                      r.value.dbSchema == GetEnv(env, "DB_SCHEMA", "public")
    ensures r.Ok? ==> r.value.dbPort == GetEnvInt(env, "DB_PORT", 5432).value &&
                      r.value.scrapeDelaySeconds == GetEnvInt(env, "SCRAPE_DELAY_SECONDS", 2).value &&
                      r.value.maxRetries == GetEnvInt(env, "MAX_RETRIES", 3).value &&
                      r.value.timeoutSeconds == GetEnvInt(env, "TIMEOUT_SECONDS", 30).value
    ensures r.Ok? && "DATABASE_URL" in env ==> r.value.databaseUrl == env["DATABASE_URL"]
    ensures r.Ok? && "DATABASE_URL" !in env ==>
              r.value.databaseUrl == ComposedUrl(r.value.dbUser, r.value.dbPassword, r.value.dbHost,
                                                 r.value.dbPort, r.value.dbName)
  {
    var host := GetEnv(env, "DB_HOST", "localhost");
    var port := GetEnvInt(env, "DB_PORT", 5432);
    var name := GetEnv(env, "DB_NAME", "postgres");
    var user := GetEnv(env, "DB_USER", "postgres");
    var password := GetEnv(env, "DB_PASSWORD", "");
    var schema := GetEnv(env, "DB_SCHEMA", "public");
    if port.None? then Err("ValueError: DB_PORT")
    else
      var url := GetEnv(env, "DATABASE_URL", ComposedUrl(user, password, host, port.value, name));
      var daft := GetEnv(env, "DAFT_BASE_URL", "https://www.daft.ie");
      var agent := GetEnv(env, "USER_AGENT", "Mozilla/5.0 (Windows NT 10.0; Win64; x64) AppleWebKit/537.36");
      var delay := GetEnvInt(env, "SCRAPE_DELAY_SECONDS", 2);
      var retries := GetEnvInt(env, "MAX_RETRIES", 3);
      var timeout := GetEnvInt(env, "TIMEOUT_SECONDS", 30);
      if delay.None? then Err("ValueError: SCRAPE_DELAY_SECONDS")
      else if retries.None? then Err("ValueError: MAX_RETRIES")
      else if timeout.None? then Err("ValueError: TIMEOUT_SECONDS")
      else Ok(Settings(host, port.value, name, user, password, schema, url, daft, agent,
                       delay.value, retries.value, timeout.value,
                       GetEnv(env, "ENVIRONMENT", "development"), GetEnv(env, "LOG_LEVEL", "INFO")))
  }

  /** With nothing set in the environment the settings are the defaults:
      port 5432, a 2-second delay, 3 retries, a 30-second timeout, and the
      URL of the local `postgres` database with an empty password. */
  lemma {:induction false} DefaultSettings()
    ensures LoadSettings(map[]).Ok?
    ensures var s := LoadSettings(map[]).value;
            s.dbHost == "localhost" && s.dbPort == 5432 && s.dbName == "postgres" && s.dbUser == "postgres" &&
            s.dbPassword == "" && s.dbSchema == "public" &&
            s.scrapeDelaySeconds == 2 && s.maxRetries == 3 && s.timeoutSeconds == 30 &&
            s.databaseUrl == "postgresql://postgres:@localhost:5432/postgres"
  {
    DefaultPortText();
    var s := LoadSettings(map[]).value;
    assert s.dbUser == "postgres" && s.dbPassword == "" && s.dbHost == "localhost";
    assert s.dbPort == 5432 && s.dbName == "postgres";
    DefaultUrl();
  }

  lemma DefaultPortText()
    ensures IntToString(5432) == "5432"
  {
    NatToStringStep(5432);
    NatToStringStep(543);
    NatToStringStep(54);
    assert DigitChar(2) == '2' && DigitChar(3) == '3' && DigitChar(4) == '4' && NatToString(5) == "5";
  }

  /** The connection string is the scheme, the credentials, the host, the
      port's decimal text and the database name, in that order. */
  lemma ComposedUrlParts(user: string, password: string, host: string, port: int, name: string, portText: string)
    requires IntToString(port) == portText
    ensures ComposedUrl(user, password, host, port, name) ==
            "postgresql://" + user + ":" + password + "@" + host + ":" + portText + "/" + name
  {
  }

  lemma DefaultUrl()
    ensures ComposedUrl("postgres", "", "localhost", 5432, "postgres") == "postgresql://postgres:@localhost:5432/postgres"
  {
    DefaultPortText();
    ComposedUrlParts("postgres", "", "localhost", 5432, "postgres", "5432");
    var head := "postgresql://" + "postgres" + ":" + "" + "@";
    assert head == "postgresql://postgres:@";
    var upToPort := head + "localhost" + ":" + "5432";
    assert upToPort == "postgresql://postgres:@localhost:5432";
  }

  // ------------------------------------------------------------ validate

  /** The settings `validate` requires, in the order it checks them. */
  const RequiredVars: seq<string> := ["DB_HOST", "DB_NAME", "DB_USER", "DB_PASSWORD"]

  function ValueOf(s: Settings, name: string): string
  {
    if name == "DB_HOST" then s.dbHost
    else if name == "DB_NAME" then s.dbName
    else if name == "DB_USER" then s.dbUser
    else if name == "DB_PASSWORD" then s.dbPassword
    else ""
  }

  /** `[var for var in names if not getattr(cls, var)]`: the names whose
      value is the empty string, in order. */
  function Missing(s: Settings, names: seq<string>): (r: seq<string>)
    ensures |r| <= |names|
    decreases |names|
  {
    if names == [] then []
    else
      var init := Missing(s, names[..|names| - 1]);
      var last := names[|names| - 1];
      if ValueOf(s, last) == "" then init + [last] else init
  }

  /** The names reported are exactly the required names whose value is
      empty. */
  lemma {:induction false} MissingKeeps(s: Settings, names: seq<string>)
    ensures forall n :: n in Missing(s, names) <==> n in names && ValueOf(s, n) == ""
    decreases |names|
  {
    if names != [] {
      var init, last := names[..|names| - 1], names[|names| - 1];
      MissingKeeps(s, init);
      assert names == init + [last];
    }
  }

  /** `sep.join(parts)`. */
  function Join(parts: seq<string>, sep: string): string
    decreases |parts|
  {
    if parts == [] then ""
    else if |parts| == 1 then parts[0]
    else Join(parts[..|parts| - 1], sep) + sep + parts[|parts| - 1]
  }

  const MissingPrefix: string := "Missing required configuration: "

  /** `Config.validate`: ValueError naming every missing setting, in the
      order DB_HOST, DB_NAME, DB_USER, DB_PASSWORD, joined by ", "; True
      when none is missing. */
  function Validate(s: Settings): (r: Result<bool>)
    ensures r.Err? <==> exists n :: n in RequiredVars && ValueOf(s, n) == ""
    ensures r.Ok? ==> r.value
    ensures r.Err? ==> r.message == MissingPrefix + Join(Missing(s, RequiredVars), ", ")
  {
    var missing := Missing(s, RequiredVars);
    MissingKeeps(s, RequiredVars);
    if missing != [] then
      assert missing[0] in missing;
      Err(MissingPrefix + Join(missing, ", "))
    else
      assert forall n :: n in RequiredVars ==> ValueOf(s, n) != "" by {
        forall n | n in RequiredVars ensures ValueOf(s, n) != "" {
          assert n in missing <==> ValueOf(s, n) == "";
        }
      }
      Ok(true)
  }

  /** The names in the message keep the checking order: a missing setting
      listed before another in `RequiredVars` is listed before it in the
      message. */
  lemma {:induction false} MissingKeepsOrder(s: Settings, names: seq<string>, i: nat, j: nat)
    requires i < j < |names| && ValueOf(s, names[i]) == "" && ValueOf(s, names[j]) == ""
    ensures exists a, b :: 0 <= a < b < |Missing(s, names)| &&
              Missing(s, names)[a] == names[i] && Missing(s, names)[b] == names[j]
    decreases |names|
  {
    var init := names[..|names| - 1];
    var m := Missing(s, init);
    if j < |names| - 1 {
      assert init[i] == names[i] && init[j] == names[j];
      MissingKeepsOrder(s, init, i, j);
      var a, b :| 0 <= a < b < |m| && m[a] == names[i] && m[b] == names[j];
      assert Missing(s, names)[..|m|] == m;
    } else {
      assert init[i] == names[i];
      MissingKeeps(s, init);
      assert names[i] in m;
      var a :| 0 <= a < |m| && m[a] == names[i];
      assert Missing(s, names) == m + [names[j]];
      assert Missing(s, names)[a] == names[i] && Missing(s, names)[|m|] == names[j];
    }
  }

  lemma MissingStep(s: Settings, names: seq<string>)
    requires names != []
    ensures Missing(s, names) == Missing(s, names[..|names| - 1]) +
              (if ValueOf(s, names[|names| - 1]) == "" then [names[|names| - 1]] else [])
  {
  }

  /** Settings whose host, name and user are set but whose password is
      empty fail validation naming the password alone. */
  lemma OnlyPasswordMissing(s: Settings)
    requires s.dbHost != "" && s.dbName != "" && s.dbUser != "" && s.dbPassword == ""
    ensures Validate(s) == Err(MissingPrefix + "DB_PASSWORD")
  {
    var r := RequiredVars;
    assert ValueOf(s, r[0]) != "" && ValueOf(s, r[1]) != "" && ValueOf(s, r[2]) != "";
    assert ValueOf(s, r[3]) == "";
    MissingStep(s, r[..1]);
    MissingStep(s, r[..2]);
    MissingStep(s, r[..3]);
    MissingStep(s, r);
    assert r[..2][..1] == r[..1];
    assert r[..3][..2] == r[..2];
    assert r[..3] == r[..|r| - 1];
    assert Missing(s, r) == ["DB_PASSWORD"];
  }

  /** The default settings fail validation: the password defaults to the
      empty string, and it is the only setting reported. */
  lemma DefaultsFailValidation()
    ensures LoadSettings(map[]).Ok?
    ensures Validate(LoadSettings(map[]).value) == Err(MissingPrefix + "DB_PASSWORD")
  {
    DefaultSettings();
    OnlyPasswordMissing(LoadSettings(map[]).value);
  }
}
