/** Starting the agent over and over: the single-use bootstrap claim and the file that remembers it. */
module BootstrapClaim {
  import opened Prelude
  import opened Text
  import opened EnvFile
  import opened AgentConfig
  import opened ConfigRoundTrip

  type File = Option<string>

  /**
   * One start: the process environment, the platform, the secret the hub would issue (none when it
   * refuses), the random hub secret, and whether the file can be written.
   */
  datatype Start = Start(env: Env, platform: Platform, issued: Option<string>, random: string, writable: bool)

  datatype Outcome =
    | SetupNeeded
    | Refused(errors: seq<ConfigError>)
    | ClaimRefused
    | WriteFailed
    | Running(config: AgentConfig)

  /** `asked`: the hub was asked to exchange the token; `kept`: an issued secret was written. */
  datatype Ran = Ran(file: File, outcome: Outcome, asked: bool, kept: bool)

  function FileEnv(file: File): Env { if file.Some? then ReadEnv(file.value) else map[] }

  /** The peer secret a file holds, "" when none. */
  function SecretOf(file: File): string { TextAt(FileEnv(file), "PEER_SECRET") }

  predicate MustClaim(c: AgentConfig) { c.peerSecret == None && c.bootstrapToken.Some? }

  function Claimed(c: AgentConfig, secret: string, random: string): AgentConfig {
    c.(peerSecret := Some(secret), bootstrapToken := None, hubSecret := Some(c.hubSecret.GetOr(random)))
  }

  function WithHubSecret(c: AgentConfig, random: string): AgentConfig {
    c.(hubSecret := Some(c.hubSecret.GetOr(random)))
  }

  function Parsed(file: File, s: Start): Result<AgentConfig, seq<ConfigError>> {
    Parse(Merged(FileEnv(file), s.env), s.platform)
  }

  function RunOnce(file: File, s: Start): Ran { Proceed(file, Parsed(file, s), s) }

  function Proceed(file: File, parsed: Result<AgentConfig, seq<ConfigError>>, s: Start): Ran {
    match parsed
    case Err(errors) => Ran(file, if file == None then SetupNeeded else Refused(errors), false, false)
    case Ok(c) =>
      if !MustClaim(c) then Ran(file, Running(WithHubSecret(c, s.random)), false, false)
      else if s.issued == None then Ran(file, ClaimRefused, true, false)
      else if !s.writable then Ran(file, WriteFailed, true, false)
      else
        var next := Claimed(c, s.issued.value, s.random);
        Ran(Some(Serialize(next, s.platform)), Running(next), true, true)
  }

  /** The machine the agent starts on: its configuration file, and how often the hub was asked. */
  class Host {
    var file: File
    var asked: nat

    constructor (file: File)
      ensures this.file == file && asked == 0
    {
      this.file := file;
      asked := 0;
    }

    method ClaimAndPersist(c: AgentConfig, s: Start) returns (claimed: Option<AgentConfig>, failure: Outcome)
      modifies this
      ensures asked == old(asked) + 1
      ensures s.issued == None ==> claimed == None && failure == ClaimRefused && file == old(file)
      ensures s.issued.Some? && !s.writable ==> claimed == None && failure == WriteFailed && file == old(file)
      ensures s.issued.Some? && s.writable ==>
        && claimed == Some(Claimed(c, s.issued.value, s.random))
        && file == Some(Serialize(claimed.value, s.platform))
    {
      asked := asked + 1;
      match s.issued
      case None => return None, ClaimRefused;
      case Some(secret) =>
        var next := c.(peerSecret := Some(secret), bootstrapToken := None,
                       hubSecret := Some(c.hubSecret.GetOr(s.random)));
        if !s.writable { return None, WriteFailed; }
        file := Some(Serialize(next, s.platform));
        return Some(next), WriteFailed;
    }

    method RunCommand(s: Start) returns (outcome: Outcome)
      modifies this
      ensures var ran := RunOnce(old(file), s);
        && file == ran.file && outcome == ran.outcome
        && asked == old(asked) + if ran.asked then 1 else 0
    {
      var fileEnv: Env := map[];
      if file.Some? { fileEnv := ReadEnvFile(file.value); }
      var merged := MergeConfigEnv(fileEnv, s.env);
      var parsed := ParseAgentConfig(merged, s.platform);
      if file == None && parsed.Err? { return SetupNeeded; }
      if parsed.Err? { return Refused(parsed.error); }
      var config := parsed.value;
      if config.peerSecret == None && config.bootstrapToken.Some? {
        var claimed, failure := ClaimAndPersist(config, s);
        if claimed == None { return failure; }
        config := claimed.value;
      }
      if config.hubSecret == None { config := config.(hubSecret := Some(s.random)); }
      return Running(config);
    }
  }

  lemma ProceedAsks(file: File, parsed: Result<AgentConfig, seq<ConfigError>>, s: Start)
    ensures Proceed(file, parsed, s).asked <==> parsed.Ok? && MustClaim(parsed.value)
    ensures Proceed(file, parsed, s).kept <==> Proceed(file, parsed, s).asked && s.issued.Some? && s.writable
    ensures Proceed(file, parsed, s).kept ==>
      Proceed(file, parsed, s).file == Some(Serialize(Claimed(parsed.value, s.issued.value, s.random), s.platform))
    ensures !Proceed(file, parsed, s).kept ==> Proceed(file, parsed, s).file == file
    ensures Proceed(file, parsed, s).outcome == SetupNeeded <==> parsed.Err? && file == None
  {
  }

  // ------------------------------------------------------ a kept secret is kept

  lemma MergedText(fileEnv: Env, env: Env, key: string)
    ensures TextAt(Merged(fileEnv, env), key)
         == if Overrides(fileEnv, env, key) then Trim(env[key]) else TextAt(fileEnv, key)
  {
  }

  /** A file that holds a secret: no environment makes a start claim, change the file or use another secret. */
  lemma {:induction false} SecretIsKept(file: File, s: Start)
    requires SecretOf(file) != ""
    ensures var ran := RunOnce(file, s);
      && ran.file == file && !ran.asked && !ran.kept
      && (ran.outcome.Refused? || (ran.outcome.Running? && ran.outcome.config.peerSecret == Some(SecretOf(file))))
  {
    MergedText(FileEnv(file), s.env, "PEER_SECRET");
    assert IsSecretKey("PEER_SECRET");
    ProceedAsks(file, Parsed(file, s), s);
    if Parsed(file, s).Ok? { ParsedFields(Merged(FileEnv(file), s.env), s.platform); }
  }

  /** The file after a sequence of starts. */
  function FileAfter(file: File, starts: seq<Start>): File {
    if starts == [] then file
    else RunOnce(FileAfter(file, starts[..|starts| - 1]), starts[|starts| - 1]).file
  }

  /** A kept secret holds through any further starts. */
  lemma {:induction false} SecretStays(file: File, starts: seq<Start>)
    requires SecretOf(file) != ""
    ensures FileAfter(file, starts) == file
  {
    if starts != [] {
      SecretStays(file, starts[..|starts| - 1]);
      SecretIsKept(file, starts[|starts| - 1]);
    }
  }

  // ------------------------------------------------ what a claim leaves in the file

  predicate OneLineEnv(env: Env) { forall key | key in env :: OneLine(env[key]) }

  /** Nothing but the issued secret can disturb the file: no input spans lines. */
  ghost predicate OneLineStart(s: Start) {
    s.platform.Faithful() && OneLineEnv(s.env) && OneLineOption(s.platform.hostname) && OneLine(s.random)
    && OneLineOption(s.issued)
  }

  lemma MergedOneLine(text: File, env: Env, key: string)
    requires OneLineEnv(env)
    ensures OneLine(TextAt(Merged(FileEnv(text), env), key))
  {
    MergedText(FileEnv(text), env, key);
    if key in env { TrimFacts(env[key]); }
    if text.Some? { TextAtOneLine(text.value, key); }
  }

  lemma ParsedIsOneLine(file: File, s: Start)
    requires OneLineStart(s) && Parsed(file, s).Ok?
    ensures OneLineConfig(Parsed(file, s).value)
  {
    var m := Merged(FileEnv(file), s.env);
    forall key: string ensures OneLine(TextAt(m, key)) { MergedOneLine(file, s.env, key); }
    ParsesToOneLine(m, s.platform);
  }

  /** An issued secret that is still there after writing and reading, in a file of single lines. */
  predicate Lasting(secret: string) { Back(secret) != "" }

  /**
   * What a claim makes of the issued secret: its own text and the hub secret's, the one line after it,
   * are read again. Nothing before them in the file matters, whatever it contains.
   */
  function ReadBack(issued: string, hubSecret: string): string {
    TextAt(ReadEnv(PrintEntries([Entry("PEER_SECRET", issued), Entry("HUB_SECRET", hubSecret)])), "PEER_SECRET")
  }

  /** The hub secret that a claim writes beside the issued one. */
  function HubSecretOf(file: File, s: Start): string
    requires Parsed(file, s).Ok?
  {
    Parsed(file, s).value.hubSecret.GetOr(s.random)
  }

  /** The secret a written configuration holds, for any configuration with both secrets. */
  lemma WrittenSecret(c: AgentConfig, p: Platform)
    requires c.peerSecret.Some? && c.hubSecret.Some?
    ensures SecretOf(Some(Serialize(c, p))) == ReadBack(c.peerSecret.value, c.hubSecret.value)
  {
    hide ReadEnv, PrintEntry, PrintEntries;
    var before := Required(c, p) + OptionLine("PEER_TOKEN", c.peerToken) + OptionLine("BOOTSTRAP_TOKEN", c.bootstrapToken);
    var secrets := [Entry("PEER_SECRET", c.peerSecret.value), Entry("HUB_SECRET", c.hubSecret.value)];
    assert Entries(c, p) == before + secrets;
    ReadAnyFile(Entries(c, p));
    ReadAnyFile(secrets);
    OverlaidJoin(before, secrets);
    KnownSecrets();
    EntryDefinesKey("PEER_SECRET", c.peerSecret.value);
    assert secrets[0].key == "PEER_SECRET" && "PEER_SECRET" in Overlaid(secrets);
  }

  /** The file written by a claim holds the issued secret as reading gives it back. */
  lemma KeptSecret(file: File, s: Start)
    requires RunOnce(file, s).kept
    ensures Parsed(file, s).Ok? && s.issued.Some?
    ensures SecretOf(RunOnce(file, s).file) == ReadBack(s.issued.value, HubSecretOf(file, s))
  {
    ProceedAsks(file, Parsed(file, s), s);
    WrittenSecret(Claimed(Parsed(file, s).value, s.issued.value, s.random), s.platform);
  }

  /** Beside a one-line hub secret, what counts is what the text `PEER_SECRET=<issued>` defines. */
  lemma OneLineHubSecret(issued: string, hubSecret: string)
    requires OneLine(hubSecret)
    ensures ReadBack(issued, hubSecret) == SecretOf(Some(PrintEntry(Entry("PEER_SECRET", issued))))
    ensures OneLine(issued) ==> ReadBack(issued, hubSecret) == Back(issued)
  {
    hide ReadEnv, PrintEntry, PrintEntries;
    var own, other := Entry("PEER_SECRET", issued), Entry("HUB_SECRET", hubSecret);
    ReadAnyFile([own, other]);
    assert [own, other][1..] == [other] && [other][1..] == [];
    assert Overlaid([own, other]) == ReadEnv(PrintEntry(own)) + (ReadEnv(PrintEntry(other)) + Overlaid([]));
    KnownSecrets();
    OneLineEntry("HUB_SECRET", hubSecret);
    assert "PEER_SECRET" !in ReadEnv(PrintEntry(other));
    if OneLine(issued) { OneLineEntry("PEER_SECRET", issued); }
  }

  /** A secret of several lines can undo itself: it is not blank, and yet it reads as nothing. */
  lemma SecretUndoesItself(hubSecret: string)
    requires OneLine(hubSecret)
    ensures ReadBack("x" + ['\n'] + "PEER_SECRET=", hubSecret) == ""
  {
    hide ReadEnv, PrintEntries;
    KnownSecrets();
    var own, again := PrintEntry(Entry("PEER_SECRET", "x")), PrintEntry(Entry("PEER_SECRET", ""));
    var issued := "x" + ['\n'] + "PEER_SECRET=";
    OneLineHubSecret(issued, hubSecret);
    assert again == "PEER_SECRET=" && PrintEntry(Entry("PEER_SECRET", issued)) == own + ['\n'] + again;
    ReadEnvJoin(own, again);
    OneLineEntry("PEER_SECRET", "");
    assert Unquote(Trim("")) == "" && Trim("") == "";
  }

  /**
   * The claim survives restarts: once an issued secret was written that reads as something, then after
   * any further starts, in any environments, the file is still that one, the next start does not ask
   * the hub, and if it runs, it runs with that secret.
   */
  lemma ClaimedOnce(file: File, s: Start, later: seq<Start>, next: Start)
    requires RunOnce(file, s).kept && Parsed(file, s).Ok? && s.issued.Some?
    requires ReadBack(s.issued.value, HubSecretOf(file, s)) != ""
    ensures var claimed := RunOnce(file, s).file;
      && FileAfter(claimed, later) == claimed
      && !RunOnce(claimed, next).asked && !RunOnce(claimed, next).kept
      && (RunOnce(claimed, next).outcome.Running? ==>
            RunOnce(claimed, next).outcome.config.peerSecret == Some(ReadBack(s.issued.value, HubSecretOf(file, s))))
  {
    KeptSecret(file, s);
    SecretStays(RunOnce(file, s).file, later);
    SecretIsKept(RunOnce(file, s).file, next);
  }

  /** How many starts wrote an issued secret. */
  function Kept(file: File, starts: seq<Start>): nat {
    if starts == [] then 0
    else
      Kept(file, starts[..|starts| - 1])
      + (if RunOnce(FileAfter(file, starts[..|starts| - 1]), starts[|starts| - 1]).kept then 1 else 0)
  }

  /** If the start writes a claim, the issued secret reads as something. */
  predicate ClaimLasts(file: File, s: Start) {
    RunOnce(file, s).kept && Parsed(file, s).Ok? && s.issued.Some? ==> ReadBack(s.issued.value, HubSecretOf(file, s)) != ""
  }

  lemma StartKeepsOrClaims(file: File, s: Start)
    requires ClaimLasts(file, s)
    ensures RunOnce(file, s).kept ==> SecretOf(file) == "" && SecretOf(RunOnce(file, s).file) != ""
    ensures !RunOnce(file, s).kept ==> RunOnce(file, s).file == file
  {
    ProceedAsks(file, Parsed(file, s), s);
    if SecretOf(file) != "" { SecretIsKept(file, s); }
    if RunOnce(file, s).kept { KeptSecret(file, s); }
  }

  /** At most one claim is ever written, when every issued secret that is written reads as something. */
  lemma {:induction false} AtMostOneClaimKept(file: File, starts: seq<Start>)
    requires forall k | 0 <= k < |starts| :: ClaimLasts(FileAfter(file, starts[..k]), starts[k])
    ensures Kept(file, starts) <= 1
    ensures Kept(file, starts) == 1 ==> SecretOf(FileAfter(file, starts)) != ""
  {
    hide RunOnce, ClaimLasts, SecretOf;
    if starts != [] {
      var n := |starts| - 1;
      var front := starts[..n];
      forall k | 0 <= k < n ensures ClaimLasts(FileAfter(file, front[..k]), front[k]) {
        assert front[..k] == starts[..k];
      }
      AtMostOneClaimKept(file, front);
      StartKeepsOrClaims(FileAfter(file, front), starts[n]);
    }
  }

  // -------------------------------------------------- when a claim does not last

  /** A value that was read back as it was is the same after the same environment is laid over it. */
  lemma SameText(before: Env, after: Env, env: Env, key: string)
    requires !IsSecretKey(key) && TextAt(after, key) == TextAt(Merged(before, env), key)
    ensures TextAt(Merged(after, env), key) == TextAt(Merged(before, env), key)
  {
    MergedText(before, env, key);
    MergedText(after, env, key);
  }

  lemma StillAnInteger(before: Env, after: Env, env: Env, key: string, p: Platform)
    requires !IsSecretKey(key) && IntegerErrors(Merged(before, env), key, p) == []
    requires IntegerErrors(after, key, p) == []
    ensures IntegerErrors(Merged(after, env), key, p) == []
  {
    MergedText(before, env, key);
    MergedText(after, env, key);
  }

  lemma StillAPeerType(before: Env, after: Env, env: Env)
    requires IsPeerType(PeerTypeAt(Merged(before, env))) && IsPeerType(PeerTypeAt(after))
    ensures IsPeerType(PeerTypeAt(Merged(after, env)))
  {
    MergedText(before, env, "PEER_TYPE");
    MergedText(after, env, "PEER_TYPE");
  }

  lemma NotSecretKeys()
    ensures !IsSecretKey("HUB_URL") && !IsSecretKey("SERVICE_ID") && !IsSecretKey("LOCAL_TARGET")
    ensures !IsSecretKey("HEARTBEAT_INTERVAL_MS") && !IsSecretKey("LIVENESS_TIMEOUT_MS") && !IsSecretKey("PEER_TYPE")
  {
  }

  /** What the file of a claim says, for a clean configuration `c`. */
  ghost predicate Remembers(m: Env, c: AgentConfig, issued: string, p: Platform) {
    && TextAt(m, "HUB_URL") == c.hubUrl && TextAt(m, "SERVICE_ID") == c.serviceId
    && TextAt(m, "LOCAL_TARGET") == c.localTarget && IsPeerType(PeerTypeAt(m))
    && IntegerErrors(m, "HEARTBEAT_INTERVAL_MS", p) == [] && IntegerErrors(m, "LIVENESS_TIMEOUT_MS", p) == []
    && TextAt(m, "BOOTSTRAP_TOKEN") == "" && TextAt(m, "PEER_SECRET") == Back(issued)
  }

  lemma ClaimIsRemembered(c: AgentConfig, issued: string, random: string, p: Platform)
    requires p.Faithful() && OneLineConfig(c) && Normal(c, p) && OneLine(issued) && OneLine(random)
    requires Clean(c.hubUrl) && Clean(c.serviceId) && Clean(c.localTarget)
    ensures Remembers(ReadEnv(Serialize(Claimed(c, issued, random), p)), c, issued, p)
  {
    var next := Claimed(c, issued, random);
    IntervalsRead(next, p);
    AddressesRead(next, p);
    OptionsRead(next, p);
    PeerTypeIsClean(c.peerType);
    BackIffClean(c.hubUrl);
    BackIffClean(c.serviceId);
    BackIffClean(c.localTarget);
    BackIffClean(c.peerType);
  }

  lemma StillSound(before: Env, after: Env, env: Env, c: AgentConfig, p: Platform, issued: string)
    requires Sound(Merged(before, env), p) && Remembers(after, c, issued, p)
    requires c.hubUrl == TextAt(Merged(before, env), "HUB_URL") && c.serviceId == TextAt(Merged(before, env), "SERVICE_ID")
    requires c.localTarget == TextAt(Merged(before, env), "LOCAL_TARGET") && TextAt(env, "BOOTSTRAP_TOKEN") != ""
    ensures Sound(Merged(after, env), p) && TextAt(Merged(after, env), "BOOTSTRAP_TOKEN") != ""
  {
    NotSecretKeys();
    SameText(before, after, env, "HUB_URL");
    SameText(before, after, env, "SERVICE_ID");
    SameText(before, after, env, "LOCAL_TARGET");
    StillAnInteger(before, after, env, "HEARTBEAT_INTERVAL_MS", p);
    StillAnInteger(before, after, env, "LIVENESS_TIMEOUT_MS", p);
    StillAPeerType(before, after, env);
    MergedText(after, env, "BOOTSTRAP_TOKEN");
  }

  lemma SecretComesFromFile(before: Env, after: Env, env: Env)
    requires TextAt(Merged(before, env), "PEER_SECRET") == ""
    ensures TextAt(Merged(after, env), "PEER_SECRET") == TextAt(after, "PEER_SECRET")
  {
    MergedText(before, env, "PEER_SECRET");
    MergedText(after, env, "PEER_SECRET");
  }

  /**
   * Exactly when a claim has to be made again: restarted in the same environment, the agent asks the
   * hub once more if and only if the issued secret is blank after writing and reading, and the
   * environment still carries a token.
   */
  lemma AsksAgainIff(file: File, s: Start)
    requires OneLineStart(s) && RunOnce(file, s).kept
    requires CleanConfig(Parsed(file, s).value)
    ensures RunOnce(RunOnce(file, s).file, s).asked <==>
      !Lasting(s.issued.value) && TextAt(s.env, "BOOTSTRAP_TOKEN") != ""
  {
    var before, p := FileEnv(file), s.platform;
    var c := Parse(Merged(before, s.env), p).value;
    var written := Serialize(Claimed(c, s.issued.value, s.random), p);
    var after := ReadEnv(written);
    ProceedAsks(file, Parsed(file, s), s);
    ProceedAsks(Some(written), Parsed(Some(written), s), s);
    ParsedIsNormal(Merged(before, s.env), p);
    ParsedIsOneLine(file, s);
    ClaimIsRemembered(c, s.issued.value, s.random, p);
    AsksAgain(before, after, c, s);
  }

  lemma AsksAgain(before: Env, after: Env, c: AgentConfig, s: Start)
    requires Parse(Merged(before, s.env), s.platform) == Ok(c) && MustClaim(c)
    requires s.issued.Some? && Remembers(after, c, s.issued.value, s.platform)
    ensures var parsed := Parse(Merged(after, s.env), s.platform);
      parsed.Ok? && MustClaim(parsed.value) <==>
      !Lasting(s.issued.value) && TextAt(s.env, "BOOTSTRAP_TOKEN") != ""
  {
    hide Parse, Errors, Sound, Merged, Serialize, ReadEnv;
    var m, p := Merged(after, s.env), s.platform;
    NoErrors(Merged(before, s.env), p);
    ParsedFields(Merged(before, s.env), p);
    SecretComesFromFile(before, after, s.env);
    MergedText(after, s.env, "BOOTSTRAP_TOKEN");
    if TextAt(s.env, "BOOTSTRAP_TOKEN") != "" {
      StillSound(before, after, s.env, c, p, s.issued.value);
      NoErrors(m, p);
    }
    if Parse(m, p).Ok? { ParsedFields(m, p); }
  }

  // ----------------------------------------- no later start, in any environment

  /** An environment that is a configuration of its own, but for a secret. */
  function Complete(url: string): Env {
    map["HUB_URL" := url, "SERVICE_ID" := "s", "LOCAL_TARGET" := url, "PEER_TYPE" := "device"]
    + map["HEARTBEAT_INTERVAL_MS" := "1", "LIVENESS_TIMEOUT_MS" := "1", "BOOTSTRAP_TOKEN" := "b"]
  }

  lemma CompleteAddresses(url: string)
    ensures var e := Complete(url);
      && "HUB_URL" in e && e["HUB_URL"] == url && "SERVICE_ID" in e && e["SERVICE_ID"] == "s"
      && "LOCAL_TARGET" in e && e["LOCAL_TARGET"] == url && "PEER_TYPE" in e && e["PEER_TYPE"] == "device"
  {
    KnownAddresses();
    KnownSettings();
    KnownIntervals();
    KnownSecrets();
  }

  lemma CompleteOthers(url: string)
    ensures var e := Complete(url);
      && "HEARTBEAT_INTERVAL_MS" in e && e["HEARTBEAT_INTERVAL_MS"] == "1"
      && "LIVENESS_TIMEOUT_MS" in e && e["LIVENESS_TIMEOUT_MS"] == "1"
      && "BOOTSTRAP_TOKEN" in e && e["BOOTSTRAP_TOKEN"] == "b" && "PEER_SECRET" !in e
  {
    KnownAddresses();
    KnownSettings();
    KnownIntervals();
    KnownSecrets();
    assert forall k | k in Complete(url) :: Rank(k) != 10;
  }

  lemma PlainOverrides(fileEnv: Env, env: Env, key: string)
    requires !IsSecretKey(key) && key in env && Trimmed(env[key]) && env[key] != ""
    ensures TextAt(Merged(fileEnv, env), key) == env[key]
    ensures key in Merged(fileEnv, env) && Merged(fileEnv, env)[key] == env[key]
  {
    TrimFacts(env[key]);
    MergedText(fileEnv, env, key);
  }

  lemma OneIsAnInteger(env: Env, key: string, p: Platform)
    requires key in env && env[key] == "1"
    ensures IntegerErrors(env, key, p) == []
  {
    NumberIsOne();
    TrimFacts("1");
  }

  lemma NumberIsOne()
    ensures AllDigits("1") && DecimalValue("1") == 1
  {
    assert "1"[..0] == "";
    assert DecimalValue("1") == 10 * DecimalValue("") + DigitValue('1');
  }

  lemma CompleteTexts(fileEnv: Env, url: string)
    requires Trimmed(url) && url != ""
    ensures var m := Merged(fileEnv, Complete(url));
      && TextAt(m, "HUB_URL") == url && TextAt(m, "SERVICE_ID") == "s" && TextAt(m, "LOCAL_TARGET") == url
      && TextAt(m, "PEER_TYPE") == "device"
  {
    hide Merged, Complete, IsSecretKey;
    var env := Complete(url);
    CompleteAddresses(url);
    NotSecretKeys();
    PlainOverrides(fileEnv, env, "HUB_URL");
    PlainOverrides(fileEnv, env, "SERVICE_ID");
    PlainOverrides(fileEnv, env, "LOCAL_TARGET");
    PlainOverrides(fileEnv, env, "PEER_TYPE");
  }

  lemma CompleteNumbers(fileEnv: Env, url: string, p: Platform)
    ensures var m := Merged(fileEnv, Complete(url));
      IntegerErrors(m, "HEARTBEAT_INTERVAL_MS", p) == [] && IntegerErrors(m, "LIVENESS_TIMEOUT_MS", p) == []
  {
    hide Merged, Complete, IsSecretKey, IntegerErrors;
    var env := Complete(url);
    CompleteOthers(url);
    NotSecretKeys();
    PlainOverrides(fileEnv, env, "HEARTBEAT_INTERVAL_MS");
    PlainOverrides(fileEnv, env, "LIVENESS_TIMEOUT_MS");
    OneIsAnInteger(Merged(fileEnv, env), "HEARTBEAT_INTERVAL_MS", p);
    OneIsAnInteger(Merged(fileEnv, env), "LIVENESS_TIMEOUT_MS", p);
  }

  lemma CompleteIsSound(fileEnv: Env, url: string, p: Platform)
    requires Trimmed(url) && url != "" && p.isHttpUrl(url)
    ensures Sound(Merged(fileEnv, Complete(url)), p)
    ensures TextAt(Merged(fileEnv, Complete(url)), "BOOTSTRAP_TOKEN") != ""
    ensures TextAt(Merged(fileEnv, Complete(url)), "PEER_SECRET") == TextAt(fileEnv, "PEER_SECRET")
  {
    hide Merged, Complete, IntegerErrors;
    CompleteTexts(fileEnv, url);
    CompleteNumbers(fileEnv, url, p);
    CompleteOthers(url);
    MergedText(fileEnv, Complete(url), "BOOTSTRAP_TOKEN");
    TrimFacts("b");
    MergedText(fileEnv, Complete(url), "PEER_SECRET");
  }

  /** A start with this environment asks the hub, whatever else the file says, unless the file holds a secret. */
  lemma CompleteAsks(file: File, url: string, s: Start)
    requires SecretOf(file) == "" && s.env == Complete(url)
    requires Trimmed(url) && url != "" && s.platform.isHttpUrl(url)
    ensures RunOnce(file, s).asked
  {
    hide Merged, Errors, Parse, Complete;
    CompleteIsSound(FileEnv(file), url, s.platform);
    NoErrors(Merged(FileEnv(file), s.env), s.platform);
    ParsedFields(Merged(FileEnv(file), s.env), s.platform);
    ProceedAsks(file, Parsed(file, s), s);
  }

  /**
   * Exactly which files settle the matter: no start of this machine, in any environment, asks the hub
   * if and only if the file holds a secret.
   */
  lemma NeverAsksIffSecret(file: File, p: Platform, url: string)
    requires Trimmed(url) && url != "" && p.isHttpUrl(url)
    ensures (forall s: Start | s.platform == p :: !RunOnce(file, s).asked) <==> SecretOf(file) != ""
  {
    if SecretOf(file) != "" {
      forall s: Start | s.platform == p ensures !RunOnce(file, s).asked { SecretIsKept(file, s); }
    } else {
      var s := Start(Complete(url), p, None, "", false);
      CompleteAsks(file, url, s);
    }
  }

  /**
   * Exactly which claims are final: after a written claim, no later start in any environment asks
   * again if and only if the issued secret reads as something where it was written. Nothing is asked
   * of the inputs; any of them may span lines.
   */
  lemma ClaimIsFinalIff(file: File, s: Start)
    requires RunOnce(file, s).kept && Parsed(file, s).Ok? && s.issued.Some?
    ensures (forall next: Start | next.platform == s.platform :: !RunOnce(RunOnce(file, s).file, next).asked)
       <==> ReadBack(s.issued.value, HubSecretOf(file, s)) != ""
  {
    hide Parse, Merged, Proceed;
    ProceedAsks(file, Parsed(file, s), s);
    var c := Parsed(file, s).value;
    ParsedFields(Merged(FileEnv(file), s.env), s.platform);
    KeptSecret(file, s);
    NoErrors(Merged(FileEnv(file), s.env), s.platform);
    AddressIsTrimmed(Merged(FileEnv(file), s.env));
    NeverAsksIffSecret(RunOnce(file, s).file, s.platform, c.hubUrl);
  }

  lemma AddressIsTrimmed(env: Env)
    ensures Trimmed(TextAt(env, "HUB_URL"))
  {
    if "HUB_URL" in env { TrimFacts(env["HUB_URL"]); }
  }

  const EXAMPLE_PLATFORM := Platform(_ => true, None, _ => None, _ => "")
  const EXAMPLE_ENV: Env := map["HUB_URL" := "u", "SERVICE_ID" := "s", "LOCAL_TARGET" := "l", "BOOTSTRAP_TOKEN" := "b"]
  const EXAMPLE_START := Start(EXAMPLE_ENV, EXAMPLE_PLATFORM, Some(" "), "r", true)

  /** A key of another rank is not in the example. */
  lemma ExampleLacks(key: string, rank: int)
    requires Known(key, rank) && rank !in {0, 2, 3, 9}
    ensures TextAt(Merged(map[], EXAMPLE_ENV), key) == ""
  {
    KnownAddresses();
    KnownSecrets();
    assert forall k | k in EXAMPLE_ENV :: Rank(k) in {0, 2, 3, 9};
  }

  lemma ExampleHas(key: string, v: string)
    requires key in EXAMPLE_ENV && EXAMPLE_ENV[key] == v && v != "" && Clean(v)
    ensures TextAt(Merged(map[], EXAMPLE_ENV), key) == v
  {
    TrimFacts(v);
    MergedText(map[], EXAMPLE_ENV, key);
  }

  lemma ExampleValues()
    ensures var e := EXAMPLE_ENV;
      && "HUB_URL" in e && e["HUB_URL"] == "u" && "SERVICE_ID" in e && e["SERVICE_ID"] == "s"
      && "LOCAL_TARGET" in e && e["LOCAL_TARGET"] == "l" && "BOOTSTRAP_TOKEN" in e && e["BOOTSTRAP_TOKEN"] == "b"
      && forall k | k in e :: OneLine(e[k])
  {
    KnownAddresses();
    KnownSecrets();
  }

  lemma ExamplePresent()
    ensures var m := Merged(map[], EXAMPLE_ENV);
      && TextAt(m, "HUB_URL") == "u" && TextAt(m, "SERVICE_ID") == "s" && TextAt(m, "LOCAL_TARGET") == "l"
      && TextAt(m, "BOOTSTRAP_TOKEN") == "b"
  {
    ExampleValues();
    ExampleHas("HUB_URL", "u");
    ExampleHas("SERVICE_ID", "s");
    ExampleHas("LOCAL_TARGET", "l");
    ExampleHas("BOOTSTRAP_TOKEN", "b");
  }

  lemma ExampleAbsent()
    ensures var m := Merged(map[], EXAMPLE_ENV);
      && TextAt(m, "PEER_ID") == "" && TextAt(m, "PEER_TYPE") == "" && TextAt(m, "HEARTBEAT_INTERVAL_MS") == ""
      && TextAt(m, "LIVENESS_TIMEOUT_MS") == "" && TextAt(m, "PEER_TOKEN") == "" && TextAt(m, "PEER_SECRET") == ""
      && TextAt(m, "HUB_SECRET") == ""
  {
    KnownAddresses();
    KnownSettings();
    KnownIntervals();
    KnownSecrets();
    ExampleLacks("PEER_ID", 1);
    ExampleLacks("PEER_TYPE", 4);
    ExampleLacks("HEARTBEAT_INTERVAL_MS", 6);
    ExampleLacks("LIVENESS_TIMEOUT_MS", 7);
    ExampleLacks("PEER_TOKEN", 8);
    ExampleLacks("PEER_SECRET", 10);
    ExampleLacks("HUB_SECRET", 11);
  }

  lemma ExampleNoErrors()
    ensures Errors(Merged(map[], EXAMPLE_ENV), EXAMPLE_PLATFORM) == []
  {
    ExamplePresent();
    ExampleAbsent();
    NoErrors(Merged(map[], EXAMPLE_ENV), EXAMPLE_PLATFORM);
  }

  lemma ExampleWords()
    ensures Clean("u") && Clean("s") && Clean("l") && Clean("b") && Clean("agent")
  {
  }

  lemma ExampleParses()
    ensures var parsed := Parsed(None, EXAMPLE_START);
      parsed.Ok? && MustClaim(parsed.value) && CleanConfig(parsed.value)
  {
    ExampleNoErrors();
    ExamplePresent();
    ExampleAbsent();
    var m := Merged(map[], EXAMPLE_ENV);
    ParsedFields(m, EXAMPLE_PLATFORM);
    ExampleClean(Parsed(None, EXAMPLE_START).value);
  }

  lemma ExampleClean(c: AgentConfig)
    requires c.hubUrl == "u" && c.peerId == "agent" && c.serviceId == "s" && c.localTarget == "l"
    requires c.peerToken == None && c.bootstrapToken == Some("b") && c.peerSecret == None && c.hubSecret == None
    ensures CleanConfig(c)
  {
    ExampleWords();
  }

  lemma ExampleIsOneLine()
    ensures OneLineStart(EXAMPLE_START) && TextAt(EXAMPLE_ENV, "BOOTSTRAP_TOKEN") != "" && !Lasting(" ")
  {
    ExampleValues();
    TrimFacts("b");
    assert " "[1..] == "";
  }

  lemma ExampleKept()
    ensures RunOnce(None, EXAMPLE_START).kept
  {
    ExampleParses();
    ProceedAsks(None, Parsed(None, EXAMPLE_START), EXAMPLE_START);
  }

  /** A hub that issues a blank secret is asked again at the next start. */
  lemma BlankSecretIsClaimedTwice()
    ensures RunOnce(None, EXAMPLE_START).kept
    ensures RunOnce(RunOnce(None, EXAMPLE_START).file, EXAMPLE_START).asked
  {
    ExampleKept();
    ExampleParses();
    ExampleIsOneLine();
    AsksAgainIff(None, EXAMPLE_START);
  }

  // ---------------------------------------------------------- how a start turns out

  /** What the agent runs with: its configuration, a hub secret in any case, and after a claim the issued secret in place of the token. */
  lemma RunsWith(file: File, s: Start)
    requires RunOnce(file, s).outcome.Running?
    ensures Parsed(file, s).Ok?
    ensures var c, ran := Parsed(file, s).value, RunOnce(file, s);
      && ran.outcome.config.hubSecret == Some(HubSecretOf(file, s))
      && (ran.kept ==> s.issued.Some? && ran.outcome.config == c.(
            peerSecret := s.issued, bootstrapToken := None, hubSecret := Some(HubSecretOf(file, s))))
      && (!ran.kept ==> ran.outcome.config == c.(hubSecret := Some(HubSecretOf(file, s))))
  {
    hide Parsed;
  }

  /** How a start turns out, told by what went wrong. */
  lemma StartTurnsOut(file: File, s: Start)
    ensures var ran := RunOnce(file, s);
      && (ran.outcome.ClaimRefused? <==> ran.asked && s.issued == None)
      && (ran.outcome.WriteFailed? <==> ran.asked && s.issued.Some? && !s.writable)
      && (ran.outcome.SetupNeeded? <==> Parsed(file, s).Err? && file == None)
      && (ran.outcome.Refused? <==> Parsed(file, s).Err? && file.Some?)
      && (ran.outcome.Refused? ==> ran.outcome.errors == Parsed(file, s).error)
      && (ran.asked <==> Parsed(file, s).Ok? && Parsed(file, s).value.peerSecret == None && Parsed(file, s).value.bootstrapToken.Some?)
  {
    hide Parsed;
  }
}
