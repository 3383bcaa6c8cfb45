/** Agent configuration: parsing, merging, printing, and reading back what was printed. */
module AgentConfig {
  import opened Prelude
  import opened Text
  import opened EnvFile

  datatype AgentConfig = AgentConfig(
    hubUrl: string, peerId: string, serviceId: string, localTarget: string,
    peerToken: Option<string>, bootstrapToken: Option<string>, peerSecret: Option<string>,
    peerType: string, tlsInsecure: bool, hubSecret: Option<string>,
    heartbeatIntervalMs: int, livenessTimeoutMs: int)

  datatype ConfigError = Missing(field: string) | NotHttp(field: string) | NotPositive(field: string) | BadPeerType

  const MAX_SAFE_INTEGER := 0x1F_FFFF_FFFF_FFFF

  /**
   * What the platform decides: URL parsing, the host name, and numbers whose text is not plain
   * decimal digits or whose value is beyond the exactly represented integers.
   */
  datatype Platform = Platform(
    isHttpUrl: string -> bool, hostname: Option<string>,
    number: string -> Option<int>, numberText: int -> string)
  {
    /** `Number(raw)`, where it is an integer. */
    function IntegerOf(raw: string): Option<int> {
      var t := Trim(raw);
      if t != "" && AllDigits(t) && DecimalValue(t) <= MAX_SAFE_INTEGER then Some(DecimalValue(t)) else number(raw)
    }

    /** `String(n)`. */
    function TextOf(n: int): string { if 0 <= n <= MAX_SAFE_INTEGER then Decimal(n) else numberText(n) }

    /** A large number that can be read is printed on one line as a text that reads as that number. */
    ghost predicate Faithful() {
      forall raw :: (var n := number(raw); n.Some? && n.value > MAX_SAFE_INTEGER ==>
        Clean(numberText(n.value)) && numberText(n.value) != "" && IntegerOf(numberText(n.value)) == n)
    }
  }

  /** A value that survives being written to one line and read back. */
  predicate Clean(v: string) { Trimmed(v) && '\n' !in v && !Quoted(v) }

  // ------------------------------------------------------------------- parsing

  function TextAt(env: Env, key: string): string { if key in env then Trim(env[key]) else "" }

  function OptionAt(env: Env, key: string): Option<string> {
    if TextAt(env, key) == "" then None else Some(TextAt(env, key))
  }

  function UrlErrors(env: Env, key: string, p: Platform): seq<ConfigError> {
    var v := TextAt(env, key);
    if v == "" then [Missing(key)] else if !p.isHttpUrl(v) then [NotHttp(key)] else []
  }

  function RequiredErrors(env: Env, key: string): seq<ConfigError> {
    if TextAt(env, key) == "" then [Missing(key)] else []
  }

  predicate HasIdentity(env: Env) {
    TextAt(env, "PEER_TOKEN") != "" || TextAt(env, "BOOTSTRAP_TOKEN") != "" || TextAt(env, "PEER_SECRET") != ""
  }

  /** A blank number is as good as an absent one. */
  function IntegerAt(env: Env, key: string, fallback: int, p: Platform): Option<int> {
    if TextAt(env, key) == "" then Some(fallback)
    else
      match p.IntegerOf(env[key])
      case Some(n) => if n > 0 then Some(n) else None
      case None => None
  }

  function IntegerErrors(env: Env, key: string, p: Platform): seq<ConfigError> {
    if IntegerAt(env, key, 1, p).None? then [NotPositive(key)] else []
  }

  function PeerTypeAt(env: Env): string { OptionAt(env, "PEER_TYPE").GetOr("device") }

  predicate IsPeerType(t: string) { t == "device" || t == "field" || t == "container" }

  function PeerIdAt(env: Env, p: Platform): string {
    OptionAt(env, "PEER_ID").GetOr(if p.hostname == None || p.hostname == Some("") then "agent" else p.hostname.value)
  }

  predicate Truthy(env: Env, key: string) { key in env && (env[key] == "1" || env[key] == "true") }

  predicate IsHttps(url: string) { "https://" <= url }

  /** Everything wrong with an environment, in the order it is reported. */
  function Errors(env: Env, p: Platform): seq<ConfigError> {
    UrlErrors(env, "HUB_URL", p)
    + RequiredErrors(env, "SERVICE_ID")
    + UrlErrors(env, "LOCAL_TARGET", p)
    + (if HasIdentity(env) then [] else [Missing("IDENTITY")])
    + IntegerErrors(env, "HEARTBEAT_INTERVAL_MS", p)
    + IntegerErrors(env, "LIVENESS_TIMEOUT_MS", p)
    + (if IsPeerType(PeerTypeAt(env)) then [] else [BadPeerType])
  }

  function Parse(env: Env, p: Platform): Result<AgentConfig, seq<ConfigError>> {
    if Errors(env, p) != [] then Err(Errors(env, p))
    else Ok(AgentConfig(
              TextAt(env, "HUB_URL"), PeerIdAt(env, p), TextAt(env, "SERVICE_ID"), TextAt(env, "LOCAL_TARGET"),
              OptionAt(env, "PEER_TOKEN"), OptionAt(env, "BOOTSTRAP_TOKEN"), OptionAt(env, "PEER_SECRET"),
              PeerTypeAt(env),
              Truthy(env, "TLS_INSECURE") && IsHttps(TextAt(env, "LOCAL_TARGET")),
              OptionAt(env, "HUB_SECRET"),
              IntegerAt(env, "HEARTBEAT_INTERVAL_MS", 1000, p).GetOr(1000),
              IntegerAt(env, "LIVENESS_TIMEOUT_MS", 60_000, p).GetOr(60_000)))
  }

  method PositiveInt(env: Env, key: string, fallback: int, p: Platform, errors: seq<ConfigError>)
    returns (value: int, reported: seq<ConfigError>)
    ensures value == IntegerAt(env, key, fallback, p).GetOr(fallback)
    ensures reported == errors + IntegerErrors(env, key, p)
  {
    value, reported := fallback, errors;
    if key !in env || |Trim(env[key])| == 0 {
      assert errors + [] == errors;
      return;
    }
    match p.IntegerOf(env[key])
    case Some(n) =>
      if n <= 0 { reported := reported + [NotPositive(key)]; } else { value := n; assert errors + [] == errors; }
    case None =>
      reported := reported + [NotPositive(key)];
  }

  method CheckUrl(value: string, key: string, p: Platform, errors: seq<ConfigError>)
    returns (reported: seq<ConfigError>)
    ensures forall env: Env | TextAt(env, key) == value :: reported == errors + UrlErrors(env, key, p)
  {
    reported := errors;
    if |value| == 0 {
      reported := reported + [Missing(key)];
    } else if !p.isHttpUrl(value) {
      reported := reported + [NotHttp(key)];
    }
    assert errors + [] == errors;
  }

  /** The checks, in the order in which they report. */
  method CheckEnv(env: Env, p: Platform) returns (heartbeatIntervalMs: int, livenessTimeoutMs: int, errors: seq<ConfigError>)
    ensures errors == Errors(env, p)
    ensures heartbeatIntervalMs == IntegerAt(env, "HEARTBEAT_INTERVAL_MS", 1000, p).GetOr(1000)
    ensures livenessTimeoutMs == IntegerAt(env, "LIVENESS_TIMEOUT_MS", 60_000, p).GetOr(60_000)
  {
    errors := CheckUrl(TextAt(env, "HUB_URL"), "HUB_URL", p, []);
    ghost var part := UrlErrors(env, "HUB_URL", p);
    assert errors == part;
    if |TextAt(env, "SERVICE_ID")| == 0 { errors := errors + [Missing("SERVICE_ID")]; }
    part := part + RequiredErrors(env, "SERVICE_ID");
    assert errors == part;
    errors := CheckUrl(TextAt(env, "LOCAL_TARGET"), "LOCAL_TARGET", p, errors);
    part := part + UrlErrors(env, "LOCAL_TARGET", p);
    if OptionAt(env, "PEER_TOKEN") == None && OptionAt(env, "BOOTSTRAP_TOKEN") == None
       && OptionAt(env, "PEER_SECRET") == None {
      errors := errors + [Missing("IDENTITY")];
    }
    part := part + (if HasIdentity(env) then [] else [Missing("IDENTITY")]);
    assert errors == part;
    heartbeatIntervalMs, errors := PositiveInt(env, "HEARTBEAT_INTERVAL_MS", 1000, p, errors);
    livenessTimeoutMs, errors := PositiveInt(env, "LIVENESS_TIMEOUT_MS", 60_000, p, errors);
    part := part + IntegerErrors(env, "HEARTBEAT_INTERVAL_MS", p) + IntegerErrors(env, "LIVENESS_TIMEOUT_MS", p);
    if !IsPeerType(PeerTypeAt(env)) { errors := errors + [BadPeerType]; }
    part := part + (if IsPeerType(PeerTypeAt(env)) then [] else [BadPeerType]);
    assert errors == part == Errors(env, p);
  }

  method ParseAgentConfig(env: Env, p: Platform) returns (parsed: Result<AgentConfig, seq<ConfigError>>)
    ensures parsed == Parse(env, p)
  {
    var peerId := TextAt(env, "PEER_ID");
    if peerId == "" { peerId := p.hostname.GetOr(""); }
    if peerId == "" { peerId := "agent"; }
    var heartbeatIntervalMs, livenessTimeoutMs, errors := CheckEnv(env, p);
    if |errors| > 0 { return Err(errors); }
    var localTarget := TextAt(env, "LOCAL_TARGET");
    return Ok(AgentConfig(TextAt(env, "HUB_URL"), peerId, TextAt(env, "SERVICE_ID"), localTarget,
                          OptionAt(env, "PEER_TOKEN"), OptionAt(env, "BOOTSTRAP_TOKEN"), OptionAt(env, "PEER_SECRET"),
                          PeerTypeAt(env), Truthy(env, "TLS_INSECURE") && IsHttps(localTarget),
                          OptionAt(env, "HUB_SECRET"), heartbeatIntervalMs, livenessTimeoutMs));
  }

  // ------------------------------------------------------------------- merging

  predicate IsSecretKey(key: string) {
    key == "PEER_TOKEN" || key == "PEER_SECRET" || key == "BOOTSTRAP_TOKEN" || key == "HUB_SECRET"
  }

  /** The process environment speaks for a key: it is set, and no secret of the file is overridden. */
  predicate Overrides(fileEnv: Env, env: Env, key: string) {
    key in env && Trim(env[key]) != "" && !(IsSecretKey(key) && TextAt(fileEnv, key) != "")
  }

  function Merged(fileEnv: Env, env: Env): Env {
    map key | key in fileEnv.Keys + env.Keys && (key in fileEnv || Overrides(fileEnv, env, key)) ::
      if Overrides(fileEnv, env, key) then env[key] else fileEnv[key]
  }

  method MergeConfigEnv(fileEnv: Env, env: Env) returns (merged: Env)
    ensures merged == Merged(fileEnv, env)
  {
    merged := fileEnv;
    var todo := env.Keys;
    while todo != {}
      invariant todo <= env.Keys
      invariant forall key ::
          key in merged <==> key in fileEnv || (key !in todo && Overrides(fileEnv, env, key))
      invariant forall key | key in merged ::
          merged[key] == if key !in todo && Overrides(fileEnv, env, key) then env[key] else fileEnv[key]
      decreases todo
    {
      var key :| key in todo;
      todo := todo - {key};
      if |Trim(env[key])| == 0 { continue; }
      if IsSecretKey(key) && |TextAt(fileEnv, key)| > 0 { continue; }
      merged := merged[key := env[key]];
    }
  }

  // ------------------------------------------------------------------ printing

  function OptionLine(key: string, v: Option<string>): seq<Entry> {
    match v
    case Some(text) => [Entry(key, text)]
    case None => []
  }

  function Required(c: AgentConfig, p: Platform): seq<Entry> {
    [Entry("HUB_URL", c.hubUrl), Entry("PEER_ID", c.peerId), Entry("SERVICE_ID", c.serviceId),
     Entry("LOCAL_TARGET", c.localTarget), Entry("PEER_TYPE", c.peerType),
     Entry("TLS_INSECURE", if c.tlsInsecure then "1" else "0"),
     Entry("HEARTBEAT_INTERVAL_MS", p.TextOf(c.heartbeatIntervalMs)),
     Entry("LIVENESS_TIMEOUT_MS", p.TextOf(c.livenessTimeoutMs))]
  }

  function Entries(c: AgentConfig, p: Platform): seq<Entry> {
    Required(c, p) + OptionLine("PEER_TOKEN", c.peerToken) + OptionLine("BOOTSTRAP_TOKEN", c.bootstrapToken)
    + OptionLine("PEER_SECRET", c.peerSecret) + OptionLine("HUB_SECRET", c.hubSecret)
  }

  method ConfigLines(c: AgentConfig, p: Platform) returns (lines: seq<Entry>)
    ensures lines == Entries(c, p)
  {
    lines := Required(c, p);
    if c.peerToken.Some? { lines := lines + [Entry("PEER_TOKEN", c.peerToken.value)]; }
    if c.bootstrapToken.Some? { lines := lines + [Entry("BOOTSTRAP_TOKEN", c.bootstrapToken.value)]; }
    if c.peerSecret.Some? { lines := lines + [Entry("PEER_SECRET", c.peerSecret.value)]; }
    if c.hubSecret.Some? { lines := lines + [Entry("HUB_SECRET", c.hubSecret.value)]; }
  }

  function Serialize(c: AgentConfig, p: Platform): string { PrintEntries(Entries(c, p)) }
}
