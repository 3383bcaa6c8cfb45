/** What a configuration means for whoever writes it: which inputs are refused, which defaults apply, who speaks for a key. */
module ConfigMeaning {
  import opened Prelude
  import opened Text
  import opened EnvFile
  import opened AgentConfig

  predicate Blank(env: Env, key: string) { key !in env || Trim(env[key]) == "" }

  /** The number given, where it is a positive integer. */
  predicate PositiveGiven(env: Env, key: string, p: Platform, n: int) {
    !Blank(env, key) && p.IntegerOf(env[key]) == Some(n) && n > 0
  }

  predicate BadUrl(env: Env, key: string, p: Platform) { !Blank(env, key) && !p.isHttpUrl(Trim(env[key])) }

  predicate BadNumber(env: Env, key: string, p: Platform) {
    !Blank(env, key) && (p.IntegerOf(env[key]) == None || p.IntegerOf(env[key]).value <= 0)
  }

  predicate Anonymous(env: Env) {
    Blank(env, "PEER_TOKEN") && Blank(env, "BOOTSTRAP_TOKEN") && Blank(env, "PEER_SECRET")
  }

  predicate UnknownType(env: Env) {
    !Blank(env, "PEER_TYPE") && Trim(env["PEER_TYPE"]) !in {"device", "field", "container"}
  }

  /** What is reported is what is wrong, each fault once, in this order. */
  lemma FaultsReported(env: Env, p: Platform)
    ensures Errors(env, p) ==
      (if Blank(env, "HUB_URL") then [Missing("HUB_URL")] else if BadUrl(env, "HUB_URL", p) then [NotHttp("HUB_URL")] else [])
      + (if Blank(env, "SERVICE_ID") then [Missing("SERVICE_ID")] else [])
      + (if Blank(env, "LOCAL_TARGET") then [Missing("LOCAL_TARGET")] else if BadUrl(env, "LOCAL_TARGET", p) then [NotHttp("LOCAL_TARGET")] else [])
      + (if Anonymous(env) then [Missing("IDENTITY")] else [])
      + (if BadNumber(env, "HEARTBEAT_INTERVAL_MS", p) then [NotPositive("HEARTBEAT_INTERVAL_MS")] else [])
      + (if BadNumber(env, "LIVENESS_TIMEOUT_MS", p) then [NotPositive("LIVENESS_TIMEOUT_MS")] else [])
      + (if UnknownType(env) then [BadPeerType] else [])
    ensures Parse(env, p).Ok? <==> Errors(env, p) == []
    ensures Parse(env, p).Err? ==> Parse(env, p).error == Errors(env, p)
  {
    hide Parse, UrlErrors, RequiredErrors, IntegerErrors, HasIdentity, PeerTypeAt, Blank, BadUrl, BadNumber, Anonymous, UnknownType;
    UrlFault(env, "HUB_URL", p);
    UrlFault(env, "LOCAL_TARGET", p);
    OtherFaults(env);
    NumberFault(env, "HEARTBEAT_INTERVAL_MS", p);
    NumberFault(env, "LIVENESS_TIMEOUT_MS", p);
    ParsedIffFaultless(env, p);
  }

  lemma UrlFault(env: Env, key: string, p: Platform)
    ensures UrlErrors(env, key, p) ==
            if Blank(env, key) then [Missing(key)] else if BadUrl(env, key, p) then [NotHttp(key)] else []
  {
  }

  lemma NumberFault(env: Env, key: string, p: Platform)
    ensures IntegerErrors(env, key, p) == if BadNumber(env, key, p) then [NotPositive(key)] else []
  {
  }

  lemma OtherFaults(env: Env)
    ensures RequiredErrors(env, "SERVICE_ID") == if Blank(env, "SERVICE_ID") then [Missing("SERVICE_ID")] else []
    ensures HasIdentity(env) <==> !Anonymous(env)
    ensures IsPeerType(PeerTypeAt(env)) <==> !UnknownType(env)
  {
    hide Trim;
  }

  /** A configuration comes of an environment without faults, and only of that. */
  lemma ParsedIffFaultless(env: Env, p: Platform)
    ensures Parse(env, p).Ok? <==> Errors(env, p) == []
    ensures Parse(env, p).Err? ==> Parse(env, p).error == Errors(env, p)
  {
    hide Errors;
  }

  /** The defaults: an interval of one second, a timeout of a minute, a device named after the host. */
  lemma DefaultsApply(env: Env, p: Platform)
    requires Parse(env, p).Ok?
    ensures var c := Parse(env, p).value;
      && (Blank(env, "HEARTBEAT_INTERVAL_MS") ==> c.heartbeatIntervalMs == 1000)
      && (Blank(env, "LIVENESS_TIMEOUT_MS") ==> c.livenessTimeoutMs == 60000)
      && (Blank(env, "PEER_TYPE") ==> c.peerType == "device")
      && (Blank(env, "PEER_ID") ==> c.peerId == if p.hostname.GetOr("") != "" then p.hostname.GetOr("") else "agent")
  {
    hide Errors, Trim;
  }

  /** And what is given is taken: trimmed texts, positive numbers; TLS checks are left out for https targets only. */
  lemma GivenIsTaken(env: Env, p: Platform)
    requires Parse(env, p).Ok?
    ensures var c := Parse(env, p).value;
      && (!Blank(env, "HEARTBEAT_INTERVAL_MS") ==> PositiveGiven(env, "HEARTBEAT_INTERVAL_MS", p, c.heartbeatIntervalMs))
      && (!Blank(env, "LIVENESS_TIMEOUT_MS") ==> PositiveGiven(env, "LIVENESS_TIMEOUT_MS", p, c.livenessTimeoutMs))
      && (!Blank(env, "PEER_ID") ==> c.peerId == Trim(env["PEER_ID"]))
      && (!Blank(env, "PEER_TYPE") ==> c.peerType == Trim(env["PEER_TYPE"]))
      && (c.tlsInsecure <==>
            "TLS_INSECURE" in env && env["TLS_INSECURE"] in {"1", "true"}
            && |c.localTarget| >= 8 && c.localTarget[..8] == "https://")
  {
    NumbersTaken(env, p);
    TextsTaken(env, p);
  }

  lemma NumbersTaken(env: Env, p: Platform)
    requires Parse(env, p).Ok?
    ensures var c := Parse(env, p).value;
      && (!Blank(env, "HEARTBEAT_INTERVAL_MS") ==> PositiveGiven(env, "HEARTBEAT_INTERVAL_MS", p, c.heartbeatIntervalMs))
      && (!Blank(env, "LIVENESS_TIMEOUT_MS") ==> PositiveGiven(env, "LIVENESS_TIMEOUT_MS", p, c.livenessTimeoutMs))
  {
    hide Trim;
    FaultsReported(env, p);
  }

  lemma TextsTaken(env: Env, p: Platform)
    requires Parse(env, p).Ok?
    ensures var c := Parse(env, p).value;
      && (!Blank(env, "PEER_ID") ==> c.peerId == Trim(env["PEER_ID"]))
      && (!Blank(env, "PEER_TYPE") ==> c.peerType == Trim(env["PEER_TYPE"]))
      && (c.tlsInsecure <==>
            "TLS_INSECURE" in env && env["TLS_INSECURE"] in {"1", "true"}
            && |c.localTarget| >= 8 && c.localTarget[..8] == "https://")
  {
    hide Errors, Trim;
  }

  /** For a key both may define, the environment speaks if it says anything, but never over a secret of the file. */
  lemma WhoSpeaks(fileEnv: Env, env: Env, key: string)
    ensures TextAt(Merged(fileEnv, env), key) ==
      if key in {"PEER_TOKEN", "PEER_SECRET", "BOOTSTRAP_TOKEN", "HUB_SECRET"} && !Blank(fileEnv, key) then Trim(fileEnv[key])
      else if !Blank(env, key) then Trim(env[key])
      else if !Blank(fileEnv, key) then Trim(fileEnv[key]) else ""
  {
    hide Trim;
  }
}
