/** Reading a printed configuration gives the configuration back, exactly when its values are clean. */
module ConfigRoundTrip {
  import opened Prelude
  import opened Text
  import opened EnvFile
  import opened AgentConfig

  // ---------------------------------------------------- the keys are distinct

  /** Place of a key in the printed file; length and first letter tell the keys apart. */
  function Rank(key: string): int {
    if key == "" then 12
    else if |key| == 7 then (if key[0] == 'H' then 0 else 1)
    else if |key| == 10 then (if key[0] == 'S' then 2 else if key[0] == 'P' then 8 else 11)
    else if |key| == 12 then (if key[0] == 'L' then 3 else 5)
    else if |key| == 9 then 4 else if |key| == 21 then 6 else if |key| == 19 then 7
    else if |key| == 15 then 9 else 10
  }

  predicate Known(key: string, rank: int) { Rank(key) == rank && PlainKey(key) }

  lemma KnownAddresses()
    ensures Known("HUB_URL", 0) && Known("PEER_ID", 1) && Known("SERVICE_ID", 2) && Known("LOCAL_TARGET", 3)
  {
  }

  lemma KnownSettings()
    ensures Known("PEER_TYPE", 4) && Known("TLS_INSECURE", 5)
  {
  }

  lemma KnownIntervals()
    ensures Known("HEARTBEAT_INTERVAL_MS", 6) && Known("LIVENESS_TIMEOUT_MS", 7)
  {
    KnownHeartbeat();
    KnownLiveness();
  }

  lemma KnownHeartbeat()
    ensures Known("HEARTBEAT_INTERVAL_MS", 6)
  {
  }

  lemma KnownLiveness()
    ensures Known("LIVENESS_TIMEOUT_MS", 7)
  {
  }

  lemma KnownSecrets()
    ensures Known("PEER_TOKEN", 8) && Known("BOOTSTRAP_TOKEN", 9) && Known("PEER_SECRET", 10) && Known("HUB_SECRET", 11)
  {
  }

  ghost predicate Ranked(es: seq<Entry>, lo: int, hi: int) {
    && (forall i | 0 <= i < |es| :: lo <= Rank(es[i].key) < hi && Known(es[i].key, Rank(es[i].key)))
    && (forall i, j | 0 <= i < j < |es| :: Rank(es[i].key) < Rank(es[j].key))
  }

  lemma RankedConcat(a: seq<Entry>, b: seq<Entry>, lo: int, mid: int, hi: int)
    requires lo <= mid <= hi && Ranked(a, lo, mid) && Ranked(b, mid, hi)
    ensures Ranked(a + b, lo, hi)
  {
    forall i | 0 <= i < |a + b| ensures lo <= Rank((a + b)[i].key) < hi && Known((a + b)[i].key, Rank((a + b)[i].key)) {
      assert (a + b)[i] == if i < |a| then a[i] else b[i - |a|];
    }
    forall i, j | 0 <= i < j < |a + b| ensures Rank((a + b)[i].key) < Rank((a + b)[j].key) {
      assert (a + b)[i] == if i < |a| then a[i] else b[i - |a|];
      assert (a + b)[j] == if j < |a| then a[j] else b[j - |a|];
    }
  }

  lemma RequiredRanked(c: AgentConfig, p: Platform)
    ensures Ranked(Required(c, p), 0, 8)
  {
    KnownAddresses();
    KnownSettings();
    KnownIntervals();
    var es := Required(c, p);
    assert Known(es[0].key, 0) && Known(es[1].key, 1) && Known(es[2].key, 2) && Known(es[3].key, 3);
    assert Known(es[4].key, 4) && Known(es[5].key, 5) && Known(es[6].key, 6) && Known(es[7].key, 7);
    assert forall i | 0 <= i < |es| :: Known(es[i].key, i);
  }

  lemma EntriesRanked(c: AgentConfig, p: Platform)
    ensures Ranked(Entries(c, p), 0, 12)
  {
    RequiredRanked(c, p);
    KnownSecrets();
    var a, b, d, e := OptionLine("PEER_TOKEN", c.peerToken), OptionLine("BOOTSTRAP_TOKEN", c.bootstrapToken),
      OptionLine("PEER_SECRET", c.peerSecret), OptionLine("HUB_SECRET", c.hubSecret);
    RankedConcat(Required(c, p), a, 0, 8, 9);
    RankedConcat(Required(c, p) + a, b, 0, 9, 10);
    RankedConcat(Required(c, p) + a + b, d, 0, 10, 11);
    RankedConcat(Required(c, p) + a + b + d, e, 0, 11, 12);
  }

  // ------------------------------------------------- what becomes of one value

  /** What a one-line value is after printing, reading and trimming. */
  function Back(v: string): string { Trim(Unquote(Trim(v))) }

  function BackOption(v: Option<string>): Option<string> {
    if v == None || Back(v.value) == "" then None else Some(Back(v.value))
  }

  lemma BackIffClean(v: string)
    requires '\n' !in v
    ensures Back(v) == v <==> Clean(v)
    ensures Clean(v) ==> Unquote(Trim(v)) == v
  {
    TrimFacts(v);
    TrimFacts(Unquote(Trim(v)));
  }

  lemma DigitsAreClean(s: string)
    requires AllDigits(s)
    ensures Clean(s)
  {
  }

  /** A printed number is clean and reads as itself. */
  lemma NumberBack(n: int, p: Platform, raw: string)
    requires p.Faithful() && n > 0
    requires n <= MAX_SAFE_INTEGER || p.number(raw) == Some(n)
    ensures Clean(p.TextOf(n)) && p.TextOf(n) != "" && p.IntegerOf(p.TextOf(n)) == Some(n)
  {
    if n <= MAX_SAFE_INTEGER {
      var s := Decimal(n);
      DigitsAreClean(s);
      DecimalRoundTrip(n);
      TrimFacts(s);
    }
  }

  // ------------------------------------------------ configurations that parse

  predicate CleanOption(v: Option<string>) { v.Some? ==> Clean(v.value) }

  predicate CleanConfig(c: AgentConfig) {
    && Clean(c.hubUrl) && Clean(c.peerId) && Clean(c.serviceId) && Clean(c.localTarget)
    && CleanOption(c.peerToken) && CleanOption(c.bootstrapToken)
    && CleanOption(c.peerSecret) && CleanOption(c.hubSecret)
  }

  predicate Filled(v: Option<string>) { v.Some? ==> v.value != "" }

  /** A number the program can have read. */
  ghost predicate Readable(n: int, p: Platform) {
    n > 0 && (n <= MAX_SAFE_INTEGER || exists raw :: p.number(raw) == Some(n))
  }

  /** What every parsed configuration satisfies. */
  ghost predicate Normal(c: AgentConfig, p: Platform) {
    && c.hubUrl != "" && p.isHttpUrl(c.hubUrl) && c.serviceId != "" && c.peerId != ""
    && c.localTarget != "" && p.isHttpUrl(c.localTarget)
    && Filled(c.peerToken) && Filled(c.bootstrapToken) && Filled(c.peerSecret) && Filled(c.hubSecret)
    && !(c.peerToken == None && c.bootstrapToken == None && c.peerSecret == None)
    && IsPeerType(c.peerType)
    && (c.tlsInsecure ==> IsHttps(c.localTarget))
    && Readable(c.heartbeatIntervalMs, p) && Readable(c.livenessTimeoutMs, p)
  }

  /** Nothing is wrong with an environment. */
  predicate Sound(env: Env, p: Platform) {
    && UrlErrors(env, "HUB_URL", p) == [] && RequiredErrors(env, "SERVICE_ID") == []
    && UrlErrors(env, "LOCAL_TARGET", p) == [] && HasIdentity(env)
    && IntegerErrors(env, "HEARTBEAT_INTERVAL_MS", p) == [] && IntegerErrors(env, "LIVENESS_TIMEOUT_MS", p) == []
    && IsPeerType(PeerTypeAt(env))
  }

  lemma NoErrors(env: Env, p: Platform)
    ensures Errors(env, p) == [] <==> Sound(env, p)
    ensures Parse(env, p).Ok? <==> Sound(env, p)
  {
  }

  lemma ReadIntegerIsReadable(env: Env, key: string, fallback: int, p: Platform)
    requires 0 < fallback <= MAX_SAFE_INTEGER && IntegerErrors(env, key, p) == []
    ensures Readable(IntegerAt(env, key, fallback, p).GetOr(fallback), p)
  {
    if TextAt(env, key) != "" {
      var raw := env[key];
      assert p.number(raw) == p.number(raw);
    }
  }

  lemma {:induction false} ParsedIsNormal(env: Env, p: Platform)
    requires Parse(env, p).Ok?
    ensures Normal(Parse(env, p).value, p)
  {
    NoErrors(env, p);
    ReadIntegerIsReadable(env, "HEARTBEAT_INTERVAL_MS", 1000, p);
    ReadIntegerIsReadable(env, "LIVENESS_TIMEOUT_MS", 60_000, p);
  }

  // -------------------------------------------------------------- reading back

  predicate OneLine(v: string) { '\n' !in v }

  predicate OneLineOption(v: Option<string>) { v.Some? ==> OneLine(v.value) }

  predicate OneLineConfig(c: AgentConfig) {
    && OneLine(c.hubUrl) && OneLine(c.peerId) && OneLine(c.serviceId) && OneLine(c.localTarget)
    && OneLineOption(c.peerToken) && OneLineOption(c.bootstrapToken)
    && OneLineOption(c.peerSecret) && OneLineOption(c.hubSecret) && OneLine(c.peerType)
  }

  ghost predicate OneLineNumbers(c: AgentConfig, p: Platform) {
    OneLine(p.TextOf(c.heartbeatIntervalMs)) && OneLine(p.TextOf(c.livenessTimeoutMs))
  }

  lemma EntryIsOneLine(c: AgentConfig, p: Platform, e: Entry)
    requires OneLineConfig(c) && OneLineNumbers(c, p) && e in Entries(c, p)
    ensures OneLine(e.value)
  {
    if e !in Required(c, p) {
      assert e in OptionLine("PEER_TOKEN", c.peerToken) || e in OptionLine("BOOTSTRAP_TOKEN", c.bootstrapToken)
          || e in OptionLine("PEER_SECRET", c.peerSecret) || e in OptionLine("HUB_SECRET", c.hubSecret);
    }
  }

  lemma EntriesPrintable(c: AgentConfig, p: Platform)
    requires OneLineConfig(c) && OneLineNumbers(c, p)
    ensures forall e | e in Entries(c, p) :: Printable(e)
  {
    EntriesRanked(c, p);
    var es := Entries(c, p);
    forall e | e in es ensures Printable(e) {
      var i :| 0 <= i < |es| && es[i] == e;
      assert Known(e.key, Rank(e.key));
      EntryIsOneLine(c, p, e);
    }
  }

  /** Each printed entry is found again under its key. */
  lemma ReadEntry(c: AgentConfig, p: Platform, e: Entry)
    requires OneLineConfig(c) && OneLineNumbers(c, p) && e in Entries(c, p)
    ensures var m := ReadEnv(Serialize(c, p));
      e.key in m && m[e.key] == Unquote(Trim(e.value)) && TextAt(m, e.key) == Back(e.value)
  {
    EntriesPrintable(c, p);
    EntriesRanked(c, p);
    ReadPrintedFile(Entries(c, p));
    DefinedHas(Entries(c, p), e);
  }

  lemma ReadRequired(c: AgentConfig, p: Platform, i: nat)
    requires OneLineConfig(c) && OneLineNumbers(c, p) && i < |Required(c, p)|
    ensures var m, e := ReadEnv(Serialize(c, p)), Required(c, p)[i];
      e.key in m && m[e.key] == Unquote(Trim(e.value)) && TextAt(m, e.key) == Back(e.value)
  {
    assert Required(c, p)[i] in Entries(c, p);
    ReadEntry(c, p, Required(c, p)[i]);
  }

  lemma ReadOption(c: AgentConfig, p: Platform, key: string, v: Option<string>, rank: int)
    requires OneLineConfig(c) && OneLineNumbers(c, p) && Known(key, rank)
    requires forall e | e in OptionLine(key, v) :: e in Entries(c, p)
    requires v == None ==> forall e | e in Entries(c, p) :: Rank(e.key) != rank
    ensures OptionAt(ReadEnv(Serialize(c, p)), key) == BackOption(v)
  {
    if v.Some? {
      assert Entry(key, v.value) in OptionLine(key, v);
      ReadEntry(c, p, Entry(key, v.value));
    } else {
      EntriesPrintable(c, p);
      ReadPrintedFile(Entries(c, p));
      DefinedLacks(Entries(c, p), key);
    }
  }

  predicate FromOption(e: Entry, key: string, v: Option<string>, rank: int) {
    e in OptionLine(key, v) && Rank(e.key) == rank
  }

  /** The rank of an entry tells which line it is. */
  lemma EntrySource(c: AgentConfig, p: Platform, e: Entry)
    requires e in Entries(c, p)
    ensures Rank(e.key) < 8
      || FromOption(e, "PEER_TOKEN", c.peerToken, 8) || FromOption(e, "BOOTSTRAP_TOKEN", c.bootstrapToken, 9)
      || FromOption(e, "PEER_SECRET", c.peerSecret, 10) || FromOption(e, "HUB_SECRET", c.hubSecret, 11)
  {
    KnownSecrets();
    if e in Required(c, p) {
      RequiredRanked(c, p);
      var i :| 0 <= i < |Required(c, p)| && Required(c, p)[i] == e;
      assert Known(e.key, Rank(e.key));
    }
  }

  lemma OptionsRead(c: AgentConfig, p: Platform)
    requires OneLineConfig(c) && OneLineNumbers(c, p)
    ensures var m := ReadEnv(Serialize(c, p));
      && OptionAt(m, "PEER_TOKEN") == BackOption(c.peerToken)
      && OptionAt(m, "BOOTSTRAP_TOKEN") == BackOption(c.bootstrapToken)
      && OptionAt(m, "PEER_SECRET") == BackOption(c.peerSecret)
      && OptionAt(m, "HUB_SECRET") == BackOption(c.hubSecret)
  {
    KnownSecrets();
    forall e | e in Entries(c, p)
      ensures Rank(e.key) == 8 ==> c.peerToken.Some?
      ensures Rank(e.key) == 9 ==> c.bootstrapToken.Some?
      ensures Rank(e.key) == 10 ==> c.peerSecret.Some?
      ensures Rank(e.key) == 11 ==> c.hubSecret.Some?
    {
      EntrySource(c, p, e);
    }
    ReadOption(c, p, "PEER_TOKEN", c.peerToken, 8);
    ReadOption(c, p, "BOOTSTRAP_TOKEN", c.bootstrapToken, 9);
    ReadOption(c, p, "PEER_SECRET", c.peerSecret, 10);
    ReadOption(c, p, "HUB_SECRET", c.hubSecret, 11);
  }

  lemma AddressesRead(c: AgentConfig, p: Platform)
    requires OneLineConfig(c) && OneLineNumbers(c, p)
    ensures var m := ReadEnv(Serialize(c, p));
      && TextAt(m, "HUB_URL") == Back(c.hubUrl) && TextAt(m, "PEER_ID") == Back(c.peerId)
      && TextAt(m, "SERVICE_ID") == Back(c.serviceId) && TextAt(m, "LOCAL_TARGET") == Back(c.localTarget)
      && TextAt(m, "PEER_TYPE") == Back(c.peerType)
  {
    ReadRequired(c, p, 0);
    ReadRequired(c, p, 1);
    ReadRequired(c, p, 2);
    ReadRequired(c, p, 3);
    ReadRequired(c, p, 4);
  }

  lemma FlagRead(c: AgentConfig, p: Platform)
    requires OneLineConfig(c) && OneLineNumbers(c, p)
    ensures Truthy(ReadEnv(Serialize(c, p)), "TLS_INSECURE") == c.tlsInsecure
  {
    ReadRequired(c, p, 5);
    var text := if c.tlsInsecure then "1" else "0";
    BackIffClean(text);
  }

  lemma IntervalsRead(c: AgentConfig, p: Platform)
    requires p.Faithful() && OneLineConfig(c)
    requires Readable(c.heartbeatIntervalMs, p) && Readable(c.livenessTimeoutMs, p)
    ensures OneLineNumbers(c, p)
    ensures var m := ReadEnv(Serialize(c, p));
      forall fallback: int ::
        && IntegerAt(m, "HEARTBEAT_INTERVAL_MS", fallback, p) == Some(c.heartbeatIntervalMs)
        && IntegerAt(m, "LIVENESS_TIMEOUT_MS", fallback, p) == Some(c.livenessTimeoutMs)
  {
    var h, l := c.heartbeatIntervalMs, c.livenessTimeoutMs;
    var rawH: string :| h <= MAX_SAFE_INTEGER || p.number(rawH) == Some(h);
    var rawL: string :| l <= MAX_SAFE_INTEGER || p.number(rawL) == Some(l);
    NumberBack(h, p, rawH);
    NumberBack(l, p, rawL);
    BackIffClean(p.TextOf(h));
    BackIffClean(p.TextOf(l));
    ReadRequired(c, p, 6);
    ReadRequired(c, p, 7);
  }

  lemma PeerTypeIsClean(t: string)
    requires IsPeerType(t)
    ensures Clean(t) && t != ""
  {
  }

  /** `m` is what reading the file of `c` gives, value by value. */
  ghost predicate ReadsAs(m: Env, c: AgentConfig, p: Platform) {
    && TextAt(m, "HUB_URL") == Back(c.hubUrl) && TextAt(m, "PEER_ID") == Back(c.peerId)
    && TextAt(m, "SERVICE_ID") == Back(c.serviceId) && TextAt(m, "LOCAL_TARGET") == Back(c.localTarget)
    && TextAt(m, "PEER_TYPE") == Back(c.peerType) && Truthy(m, "TLS_INSECURE") == c.tlsInsecure
    && OptionAt(m, "PEER_TOKEN") == BackOption(c.peerToken)
    && OptionAt(m, "BOOTSTRAP_TOKEN") == BackOption(c.bootstrapToken)
    && OptionAt(m, "PEER_SECRET") == BackOption(c.peerSecret) && OptionAt(m, "HUB_SECRET") == BackOption(c.hubSecret)
    && forall fallback: int ::
         && IntegerAt(m, "HEARTBEAT_INTERVAL_MS", fallback, p) == Some(c.heartbeatIntervalMs)
         && IntegerAt(m, "LIVENESS_TIMEOUT_MS", fallback, p) == Some(c.livenessTimeoutMs)
  }

  lemma FileReadsAs(c: AgentConfig, p: Platform)
    requires p.Faithful() && OneLineConfig(c)
    requires Readable(c.heartbeatIntervalMs, p) && Readable(c.livenessTimeoutMs, p)
    ensures ReadsAs(ReadEnv(Serialize(c, p)), c, p)
  {
    IntervalsRead(c, p);
    AddressesRead(c, p);
    OptionsRead(c, p);
    FlagRead(c, p);
  }

  lemma CleanAddressesRead(m: Env, c: AgentConfig, p: Platform)
    requires ReadsAs(m, c, p) && Normal(c, p) && CleanConfig(c)
    ensures TextAt(m, "HUB_URL") == c.hubUrl && TextAt(m, "PEER_ID") == c.peerId
    ensures TextAt(m, "SERVICE_ID") == c.serviceId && TextAt(m, "LOCAL_TARGET") == c.localTarget
    ensures TextAt(m, "PEER_TYPE") == c.peerType && c.peerType != ""
  {
    BackIffClean(c.hubUrl);
    BackIffClean(c.peerId);
    BackIffClean(c.serviceId);
    BackIffClean(c.localTarget);
    PeerTypeIsClean(c.peerType);
    BackIffClean(c.peerType);
  }

  lemma CleanOptionsRead(m: Env, c: AgentConfig, p: Platform)
    requires ReadsAs(m, c, p) && Normal(c, p) && CleanConfig(c)
    ensures OptionAt(m, "PEER_TOKEN") == c.peerToken && OptionAt(m, "BOOTSTRAP_TOKEN") == c.bootstrapToken
    ensures OptionAt(m, "PEER_SECRET") == c.peerSecret && OptionAt(m, "HUB_SECRET") == c.hubSecret
  {
    OptionBackIffClean(c.peerToken);
    OptionBackIffClean(c.bootstrapToken);
    OptionBackIffClean(c.peerSecret);
    OptionBackIffClean(c.hubSecret);
  }

  lemma CleanIsSound(m: Env, c: AgentConfig, p: Platform)
    requires ReadsAs(m, c, p) && Normal(c, p) && CleanConfig(c)
    ensures Sound(m, p)
  {
    CleanAddressesRead(m, c, p);
    CleanOptionsRead(m, c, p);
  }

  /** A clean configuration survives: it is what its own file parses to. */
  lemma RoundTrip(c: AgentConfig, p: Platform)
    requires p.Faithful() && Normal(c, p) && CleanConfig(c)
    ensures Parse(ReadEnv(Serialize(c, p)), p) == Ok(c)
  {
    PeerTypeIsClean(c.peerType);
    FileReadsAs(c, p);
    ReadsBack(ReadEnv(Serialize(c, p)), c, p);
  }

  lemma ReadsBack(m: Env, c: AgentConfig, p: Platform)
    requires ReadsAs(m, c, p) && Normal(c, p) && CleanConfig(c)
    ensures Parse(m, p) == Ok(c)
  {
    CleanIsSound(m, c, p);
    NoErrors(m, p);
    CleanAddressesRead(m, c, p);
    CleanOptionsRead(m, c, p);
  }

  lemma OptionBackIffClean(v: Option<string>)
    requires Filled(v) && OneLineOption(v)
    ensures BackOption(v) == v <==> CleanOption(v)
  {
    if v.Some? { BackIffClean(v.value); }
  }

  lemma TextAtOneLine(text: string, key: string)
    ensures OneLine(TextAt(ReadEnv(text), key))
  {
    ReadEnvHasNoNewline(text);
    if key in ReadEnv(text) { TrimFacts(ReadEnv(text)[key]); }
  }

  predicate CleanHost(p: Platform) { CleanOption(p.hostname) }

  /** Where each value of a parsed configuration comes from. */
  lemma ParsedFields(env: Env, p: Platform)
    requires Parse(env, p).Ok?
    ensures var c := Parse(env, p).value;
      && c.hubUrl == TextAt(env, "HUB_URL") && c.peerId == PeerIdAt(env, p)
      && c.serviceId == TextAt(env, "SERVICE_ID") && c.localTarget == TextAt(env, "LOCAL_TARGET")
      && c.peerToken == OptionAt(env, "PEER_TOKEN") && c.bootstrapToken == OptionAt(env, "BOOTSTRAP_TOKEN")
      && c.peerSecret == OptionAt(env, "PEER_SECRET") && c.hubSecret == OptionAt(env, "HUB_SECRET")
      && c.peerType == PeerTypeAt(env)
  {
  }

  ghost predicate OneLineTexts(env: Env) { forall key: string :: OneLine(TextAt(env, key)) }

  lemma TextsToConfig(env: Env, c: AgentConfig, p: Platform)
    requires OneLineTexts(env) && OneLineOption(p.hostname)
    requires c.hubUrl == TextAt(env, "HUB_URL") && c.peerId == PeerIdAt(env, p)
      && c.serviceId == TextAt(env, "SERVICE_ID") && c.localTarget == TextAt(env, "LOCAL_TARGET")
      && c.peerToken == OptionAt(env, "PEER_TOKEN") && c.bootstrapToken == OptionAt(env, "BOOTSTRAP_TOKEN")
      && c.peerSecret == OptionAt(env, "PEER_SECRET") && c.hubSecret == OptionAt(env, "HUB_SECRET")
      && c.peerType == PeerTypeAt(env)
    ensures OneLineConfig(c)
  {
    assert OneLine(TextAt(env, "HUB_URL")) && OneLine(TextAt(env, "PEER_ID")) && OneLine(TextAt(env, "SERVICE_ID"));
    assert OneLine(TextAt(env, "LOCAL_TARGET")) && OneLine(TextAt(env, "PEER_TOKEN"));
    assert OneLine(TextAt(env, "BOOTSTRAP_TOKEN")) && OneLine(TextAt(env, "PEER_SECRET"));
    assert OneLine(TextAt(env, "HUB_SECRET")) && OneLine(TextAt(env, "PEER_TYPE"));
  }

  /** An environment without line breaks parses to a configuration without line breaks. */
  lemma ParsesToOneLine(env: Env, p: Platform)
    requires OneLineTexts(env) && OneLineOption(p.hostname) && Parse(env, p).Ok?
    ensures OneLineConfig(Parse(env, p).value)
  {
    ParsedFields(env, p);
    TextsToConfig(env, Parse(env, p).value, p);
  }

  /** The peer id is what was read, or the fallback, which is clean. */
  lemma HostIsBack(m: Env, c: AgentConfig, p: Platform)
    requires CleanHost(p) && PeerIdAt(m, p) == c.peerId
    ensures TextAt(m, "PEER_ID") == c.peerId || Clean(c.peerId)
  {
  }

  lemma CleanAddresses(m: Env, c: AgentConfig, p: Platform)
    requires ReadsAs(m, c, p) && CleanHost(p) && Normal(c, p) && OneLineConfig(c)
    requires TextAt(m, "HUB_URL") == c.hubUrl && PeerIdAt(m, p) == c.peerId
      && TextAt(m, "SERVICE_ID") == c.serviceId && TextAt(m, "LOCAL_TARGET") == c.localTarget
    ensures Clean(c.hubUrl) && Clean(c.peerId) && Clean(c.serviceId) && Clean(c.localTarget)
  {
    hide Back, Clean, TextAt, OptionAt;
    HostIsBack(m, c, p);
    BackIffClean(c.hubUrl);
    BackIffClean(c.peerId);
    BackIffClean(c.serviceId);
    BackIffClean(c.localTarget);
  }

  lemma CleanOptions(m: Env, c: AgentConfig, p: Platform)
    requires ReadsAs(m, c, p) && Normal(c, p) && OneLineConfig(c)
    requires OptionAt(m, "PEER_TOKEN") == c.peerToken && OptionAt(m, "BOOTSTRAP_TOKEN") == c.bootstrapToken
      && OptionAt(m, "PEER_SECRET") == c.peerSecret && OptionAt(m, "HUB_SECRET") == c.hubSecret
    ensures CleanOption(c.peerToken) && CleanOption(c.bootstrapToken)
    ensures CleanOption(c.peerSecret) && CleanOption(c.hubSecret)
  {
    OptionBackIffClean(c.peerToken);
    OptionBackIffClean(c.bootstrapToken);
    OptionBackIffClean(c.peerSecret);
    OptionBackIffClean(c.hubSecret);
  }

  /** Only a clean configuration survives. */
  lemma OnlyCleanSurvives(c: AgentConfig, p: Platform)
    requires p.Faithful() && CleanHost(p) && Normal(c, p)
    requires Parse(ReadEnv(Serialize(c, p)), p) == Ok(c)
    ensures CleanConfig(c)
  {
    var m := ReadEnv(Serialize(c, p));
    forall key: string ensures OneLine(TextAt(m, key)) { TextAtOneLine(Serialize(c, p), key); }
    ParsesToOneLine(m, p);
    ParsedFields(m, p);
    FileReadsAs(c, p);
    CleanAddresses(m, c, p);
    CleanOptions(m, c, p);
  }

  /**
   * Every configuration the program parses from any environment is read back from its own file
   * unchanged exactly when its values are trimmed, newline-free and not wrapped in matching quotes.
   */
  lemma RoundTripIffClean(env: Env, p: Platform)
    requires p.Faithful() && CleanHost(p) && Parse(env, p).Ok?
    ensures var c := Parse(env, p).value;
      Parse(ReadEnv(Serialize(c, p)), p) == Ok(c) <==> CleanConfig(c)
  {
    var c := Parse(env, p).value;
    ParsedIsNormal(env, p);
    if CleanConfig(c) { RoundTrip(c, p); }
    if Parse(ReadEnv(Serialize(c, p)), p) == Ok(c) { OnlyCleanSurvives(c, p); }
  }

  /** A token typed with quotes around it is accepted, and lost by writing the file. */
  lemma QuotedTokenChanges(env: Env, p: Platform)
    requires p.Faithful() && CleanHost(p) && Parse(env, p).Ok?
    requires Parse(env, p).value.peerToken == Some("\"t\"")
    ensures Parse(ReadEnv(Serialize(Parse(env, p).value, p)), p) != Ok(Parse(env, p).value)
  {
    hide Parse, ReadEnv, Serialize;
    RoundTripIffClean(env, p);
    QuotedIsNotClean("\"t\"");
  }

  lemma QuotedIsNotClean(v: string)
    requires Quoted(v)
    ensures !Clean(v)
  {
  }
}
