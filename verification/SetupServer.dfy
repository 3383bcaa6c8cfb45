/** The first-boot setup form: test and save share one claim of a single-use token. */
module SetupServer {
  import opened Prelude
  import opened Text
  import opened EnvFile
  import opened AgentConfig
  import opened ConfigRoundTrip
  import opened BootstrapClaim

  datatype AuthMode = ByToken | ByBootstrap | NoMode

  datatype Form = Form(
    hubUrl: Option<string>, peerId: Option<string>, serviceId: Option<string>, localTarget: Option<string>,
    authMode: AuthMode, token: Option<string>, tlsInsecure: bool)

  function Put(env: Env, key: string, v: Option<string>): Env { if v.Some? then env[key := v.value] else env }

  function FormEnv(f: Form): Env {
    var addresses := Put(Put(Put(Put(map[], "HUB_URL", f.hubUrl), "PEER_ID", f.peerId),
                             "SERVICE_ID", f.serviceId), "LOCAL_TARGET", f.localTarget);
    Put(Put(addresses, "PEER_TOKEN", if f.authMode == ByToken then f.token else None),
        "BOOTSTRAP_TOKEN", if f.authMode == ByBootstrap then f.token else None)
      ["TLS_INSECURE" := if f.tlsInsecure then "1" else "0"]
  }

  function ParseForm(f: Form, p: Platform): Result<AgentConfig, seq<ConfigError>> { Parse(FormEnv(f), p) }

  /** The form is offered when there is no file and the environment alone is no configuration. */
  predicate ShouldStartSetup(configExists: bool, env: Env, p: Platform) { !configExists && Parse(env, p).Err? }

  /** A credential the hub issued, and for what. */
  datatype Claim = Claim(hubUrl: string, peerId: string, token: string, secret: string)

  datatype Cached = Cached(key: string, peerId: string, secret: string)

  function Key(hubUrl: string, peerId: string, token: string): string {
    hubUrl + ['|'] + peerId + ['|'] + token
  }

  function KeyOf(c: AgentConfig): string
    requires c.bootstrapToken.Some?
  {
    Key(c.hubUrl, c.peerId, c.bootstrapToken.value)
  }

  /** What the setup agent remembers, and what the hub has issued to it. */
  datatype State = State(cached: Option<Cached>, issued: seq<Claim>)

  /** The secret to use, if any, and the state after: the hub is asked only for a key that is not cached. */
  function EnsureClaim(s: State, c: AgentConfig, answer: Option<string>): (State, Option<string>)
    requires c.bootstrapToken.Some?
  {
    if s.cached.Some? && s.cached.value.key == KeyOf(c) then (s, Some(s.cached.value.secret))
    else if answer == None then (s, None)
    else (State(Some(Cached(KeyOf(c), c.peerId, answer.value)),
                s.issued + [Claim(c.hubUrl, c.peerId, c.bootstrapToken.value, answer.value)]), answer)
  }

  /** One button press: the form, what the hub answers, and for a save the random secret and the disk. */
  datatype Call =
    | Test(form: Form, reachable: bool, answer: Option<string>)
    | Save(form: Form, answer: Option<string>, random: string, writable: bool)

  /** State after a call, its HTTP status, and the configuration it wrote. */
  datatype Done = Done(state: State, status: int, written: Option<AgentConfig>)

  function Press(s: State, call: Call, p: Platform): Done { Handle(s, call, ParseForm(call.form, p)) }

  function Handle(s: State, call: Call, parsed: Result<AgentConfig, seq<ConfigError>>): Done {
    match parsed
    case Err(_) => Done(s, 400, None)
    case Ok(c) =>
      match call
      case Test(_, reachable, answer) =>
        if !reachable then Done(s, 502, None)
        else if !MustClaim(c) then Done(s, 200, None)
        else
          var (next, secret) := EnsureClaim(s, c, answer);
          Done(next, if secret == None then 502 else 200, None)
      case Save(_, answer, random, writable) =>
        if !MustClaim(c) then Store(s, WithHubSecret(c, random), writable)
        else
          var (next, secret) := EnsureClaim(s, c, answer);
          if secret == None then Done(next, 502, None)
          else Store(next, Claimed(c, secret.value, random), writable)
  }

  function Store(s: State, c: AgentConfig, writable: bool): Done {
    if writable then Done(s, 200, Some(c)) else Done(s, 500, None)
  }

  class SetupAgent {
    const platform: Platform
    var claimed: Option<Cached>
    var saving: bool
    var written: Option<AgentConfig>
    ghost var issued: seq<Claim>

    ghost function Now(): State
      reads this
    {
      State(claimed, issued)
    }

    constructor (platform: Platform)
      ensures this.platform == platform && Now() == State(None, []) && !saving && written == None
    {
      this.platform := platform;
      claimed, saving, written, issued := None, false, None, [];
    }

    method EnsureClaimed(c: AgentConfig, bootstrapToken: string, answer: Option<string>)
      returns (secret: Option<string>)
      requires c.bootstrapToken == Some(bootstrapToken)
      modifies this`claimed, this`issued
      ensures (Now(), secret) == EnsureClaim(old(Now()), c, answer)
    {
      var key := Key(c.hubUrl, c.peerId, bootstrapToken);
      if claimed.Some? && claimed.value.key == key { return Some(claimed.value.secret); }
      if answer.Some? {
        claimed := Some(Cached(key, c.peerId, answer.value));
        issued := issued + [Claim(c.hubUrl, c.peerId, bootstrapToken, answer.value)];
      }
      return answer;
    }

    method TestForm(form: Form, reachable: bool, answer: Option<string>) returns (status: int)
      modifies this`claimed, this`issued
      ensures var done := Press(old(Now()), Test(form, reachable, answer), platform);
        Now() == done.state && status == done.status
    {
      var parsed := ParseAgentConfig(FormEnv(form), platform);
      if parsed.Err? { return 400; }
      var config := parsed.value;
      if !reachable { return 502; }
      if config.bootstrapToken.Some? && config.peerSecret == None {
        var claim := EnsureClaimed(config, config.bootstrapToken.value, answer);
        return if claim == None then 502 else 200;
      }
      return 200;
    }

    method SaveForm(form: Form, answer: Option<string>, random: string, writable: bool) returns (status: int)
      modifies this
      ensures old(saving) ==> status == 409 && Now() == old(Now()) && saving && written == old(written)
      ensures !old(saving) ==>
        var done := Press(old(Now()), Save(form, answer, random, writable), platform);
        && Now() == done.state && status == done.status && !saving
        && written == if done.written.Some? then done.written else old(written)
    {
      hide Parse, FormEnv, Key;
      if saving { return 409; }
      var parsed := ParseAgentConfig(FormEnv(form), platform);
      if parsed.Err? { return 400; }
      saving := true;
      var config := parsed.value;
      if config.bootstrapToken.Some? && config.peerSecret == None {
        var claim := EnsureClaimed(config, config.bootstrapToken.value, answer);
        if claim == None {
          saving := false;
          return 502;
        }
        config := config.(peerSecret := claim, bootstrapToken := None);
      }
      config := config.(hubSecret := Some(config.hubSecret.GetOr(random)));
      saving := false;
      if !writable { return 500; }
      written := Some(config);
      return 200;
    }
  }

  // --------------------------------------------------------------- one claim

  function After(s: State, calls: seq<Call>, p: Platform): State {
    if calls == [] then s else Press(After(s, calls[..|calls| - 1], p), calls[|calls| - 1], p).state
  }

  /** The call needs a credential for this key. */
  predicate NeedsKey(call: Call, p: Platform, key: string) {
    var parsed := ParseForm(call.form, p);
    parsed.Ok? && MustClaim(parsed.value) && KeyOf(parsed.value) == key
  }

  predicate NeedsClaim(call: Call, p: Platform) {
    var parsed := ParseForm(call.form, p);
    parsed.Ok? && MustClaim(parsed.value)
  }

  /** The hub issued exactly the credential the cache holds, for the key the cache holds. */
  ghost predicate CacheIsIssued(s: State) {
    s.cached.Some? ==>
      exists i :: 0 <= i < |s.issued| && IsFor(s.issued[i], s.cached.value.key, s.cached.value.secret)
  }

  predicate IsFor(claim: Claim, key: string, secret: string) {
    Key(claim.hubUrl, claim.peerId, claim.token) == key && claim.secret == secret
  }

  /** A call that needs no claim, or whose key is cached, asks the hub for nothing. */
  lemma CachedKeyIsNotClaimed(s: State, call: Call, p: Platform)
    requires NeedsClaim(call, p) ==> s.cached.Some? && NeedsKey(call, p, s.cached.value.key)
    ensures Press(s, call, p).state == s
  {
  }

  /** `t` is `s` with one more claim, made for `c` and cached. */
  ghost predicate ClaimedFor(s: State, t: State, c: AgentConfig)
    requires c.bootstrapToken.Some?
  {
    && t.cached.Some? && t.cached.value.key == KeyOf(c) && |t.issued| == |s.issued| + 1 && s.issued <= t.issued
    && IsFor(t.issued[|s.issued|], KeyOf(c), t.cached.value.secret)
  }

  lemma EnsureClaimClaims(s: State, c: AgentConfig, answer: Option<string>)
    requires c.bootstrapToken.Some?
    ensures var (t, secret) := EnsureClaim(s, c, answer);
      && (t == s || ClaimedFor(s, t, c))
      && (secret.Some? ==> t.cached.Some? && t.cached.value.key == KeyOf(c) && t.cached.value.secret == secret.value)
  {
  }

  lemma HandleClaims(s: State, call: Call, parsed: Result<AgentConfig, seq<ConfigError>>)
    ensures var t := Handle(s, call, parsed).state;
      t == s || (parsed.Ok? && MustClaim(parsed.value) && ClaimedFor(s, t, parsed.value))
    ensures var done := Handle(s, call, parsed);
      done.written.Some? && parsed.Ok? && MustClaim(parsed.value) ==>
        && done.state.cached.Some? && done.state.cached.value.key == KeyOf(parsed.value)
        && done.written.value.peerSecret == Some(done.state.cached.value.secret)
        && done.written.value.bootstrapToken == None
        && done.written.value.hubUrl == parsed.value.hubUrl && done.written.value.peerId == parsed.value.peerId
  {
    if parsed.Ok? && MustClaim(parsed.value) { EnsureClaimClaims(s, parsed.value, call.answer); }
  }

  /**
   * Any number of tests and saves that agree on hub, peer and token make at most one successful
   * claim, and after it the state never changes.
   */
  lemma {:induction false} OneClaimPerKey(calls: seq<Call>, p: Platform, key: string)
    requires forall call | call in calls && NeedsClaim(call, p) :: NeedsKey(call, p, key)
    ensures var s := After(State(None, []), calls, p);
      && |s.issued| <= 1 && (s.issued == [] <==> s.cached == None)
      && (s.cached.Some? ==> s.cached.value.key == key)
  {
    if calls != [] {
      var n := |calls| - 1;
      var front, last := calls[..n], calls[n];
      assert forall call | call in front :: call in calls;
      OneClaimPerKey(front, p, key);
      var s := After(State(None, []), front, p);
      assert last in calls;
      if s.cached.Some? { CachedKeyIsNotClaimed(s, last, p); } else { HandleClaims(s, last, ParseForm(last.form, p)); }
    }
  }

  // ------------------------------------------------------ whose secret it is

  /** Without `|` in hub and peer, a key stands for one hub, peer and token. */
  lemma KeyIsInjective(h: string, p: string, t: string, h': string, p': string, t': string)
    requires '|' !in h && '|' !in h' && '|' !in p && '|' !in p'
    ensures Key(h, p, t) == Key(h', p', t') <==> h == h' && p == p' && t == t'
  {
    if Key(h, p, t) == Key(h', p', t') {
      Assoc(h + ['|'], p + ['|'], t);
      Assoc(h' + ['|'], p' + ['|'], t');
      Assoc(h + ['|'], p, ['|']);
      Assoc(h' + ['|'], p', ['|']);
      CutFirst(h, p + ['|'] + t, h', p' + ['|'] + t', '|');
      CutFirst(p, t, p', t', '|');
    }
  }

  function Prefix(h: string, p: string): string { h + ['|'] + p + ['|'] }

  /** A token that the form takes as it is. */
  predicate IsToken(t: string) { t != "" && Trimmed(t) }

  predicate StartsSolid(m: string) { m == "" || !IsSpace(m[0]) }

  /** One prefix begins with the other, and goes on with something a token can begin with. */
  predicate MeetsCleanly(a: string, b: string) {
    (a <= b && StartsSolid(b[|a|..])) || (b <= a && StartsSolid(a[|b|..]))
  }

  lemma TokenAfter(a: string, t: string, b: string, t': string)
    requires IsToken(t) && a + t == b + t' && |a| <= |b|
    ensures a <= b && StartsSolid(b[|a|..])
  {
    var x := a + t;
    assert a == x[..|a|] && b == x[..|b|] && t == x[|a|..];
    assert b[|a|..] != "" ==> b[|a|..][0] == t[0];
  }

  /** Exactly when two peers can share a key for some tokens the form takes. */
  lemma TokensCanMeetIff(h: string, p: string, h': string, p': string)
    ensures (exists t, t' :: IsToken(t) && IsToken(t') && Key(h, p, t) == Key(h', p', t'))
       <==> MeetsCleanly(Prefix(h, p), Prefix(h', p'))
  {
    var a, b := Prefix(h, p), Prefix(h', p');
    if exists t, t' :: IsToken(t) && IsToken(t') && Key(h, p, t) == Key(h', p', t') {
      var t, t' :| IsToken(t) && IsToken(t') && Key(h, p, t) == Key(h', p', t');
      if |a| <= |b| { TokenAfter(a, t, b, t'); } else { TokenAfter(b, t', a, t); }
    }
    if MeetsCleanly(a, b) {
      var t, t';
      if a <= b && StartsSolid(b[|a|..]) {
        t, t' := b[|a|..] + "x", "x";
      } else {
        t, t' := "x", a[|b|..] + "x";
      }
      assert IsToken(t) && IsToken(t') && Key(h, p, t) == Key(h', p', t');
    }
  }

  /** The form a peer is set up with. */
  function PeerForm(hub: string, peer: string, token: string): Form {
    Form(Some(hub), Some(peer), Some("s"), Some(hub), ByBootstrap, Some(token), false)
  }

  predicate ValidPeer(hub: string, peer: string, p: Platform) {
    hub != "" && Trimmed(hub) && p.isHttpUrl(hub) && peer != "" && Trimmed(peer)
  }

  lemma FormHas(hub: string, peer: string, token: string)
    ensures var e := FormEnv(PeerForm(hub, peer, token));
      && "HUB_URL" in e && e["HUB_URL"] == hub && "PEER_ID" in e && e["PEER_ID"] == peer
      && "SERVICE_ID" in e && e["SERVICE_ID"] == "s" && "LOCAL_TARGET" in e && e["LOCAL_TARGET"] == hub
      && "BOOTSTRAP_TOKEN" in e && e["BOOTSTRAP_TOKEN"] == token
  {
    KnownAddresses();
    KnownSettings();
    KnownSecrets();
  }

  lemma FormLacks(hub: string, peer: string, token: string, key: string, rank: int)
    requires Known(key, rank) && rank !in {0, 1, 2, 3, 5, 9}
    ensures TextAt(FormEnv(PeerForm(hub, peer, token)), key) == ""
  {
    KnownAddresses();
    KnownSettings();
    KnownSecrets();
  }

  lemma FormSound(hub: string, peer: string, token: string, p: Platform)
    requires ValidPeer(hub, peer, p) && IsToken(token)
    ensures var e := FormEnv(PeerForm(hub, peer, token));
      && Sound(e, p) && TextAt(e, "HUB_URL") == hub && TextAt(e, "PEER_ID") == peer
      && TextAt(e, "BOOTSTRAP_TOKEN") == token && TextAt(e, "PEER_SECRET") == ""
  {
    hide FormEnv;
    FormHas(hub, peer, token);
    KnownSettings();
    KnownIntervals();
    KnownSecrets();
    FormLacks(hub, peer, token, "PEER_TYPE", 4);
    FormLacks(hub, peer, token, "HEARTBEAT_INTERVAL_MS", 6);
    FormLacks(hub, peer, token, "LIVENESS_TIMEOUT_MS", 7);
    FormLacks(hub, peer, token, "PEER_SECRET", 10);
    TrimFacts(hub);
    TrimFacts(peer);
    TrimFacts(token);
    TrimFacts("s");
  }

  /** The form of a peer parses to a configuration that needs a claim for that very peer. */
  lemma FormNeedsClaim(hub: string, peer: string, token: string, p: Platform)
    requires ValidPeer(hub, peer, p) && IsToken(token)
    ensures var parsed := ParseForm(PeerForm(hub, peer, token), p);
      && parsed.Ok? && MustClaim(parsed.value) && parsed.value.hubUrl == hub && parsed.value.peerId == peer
      && parsed.value.bootstrapToken == Some(token)
  {
    hide FormEnv, Parse, Errors, Sound;
    var e := FormEnv(PeerForm(hub, peer, token));
    FormSound(hub, peer, token, p);
    NoErrors(e, p);
    ParsedFields(e, p);
  }

  /** The first form is tested and its token exchanged; the save of the second, which the hub would refuse, writes that secret. */
  predicate Reuses(first: Form, second: Form, secret: string, p: Platform) {
    var tested := Press(State(None, []), Test(first, true, Some(secret)), p);
    var saved := Press(tested.state, Save(second, None, "r", true), p);
    saved.written.Some? && saved.written.value.peerSecret == Some(secret)
  }

  lemma ReusesIffSameKey(first: Form, second: Form, secret: string, p: Platform)
    requires NeedsClaim(Test(first, true, Some(secret)), p) && NeedsClaim(Test(second, true, None), p)
    ensures Reuses(first, second, secret, p) <==> KeyOf(ParseForm(first, p).value) == KeyOf(ParseForm(second, p).value)
  {
    hide Parse, FormEnv, Key;
  }

  /**
   * Exactly which two peers can be confused: for some tokens the form takes, setting up the second
   * after the first writes the secret that was issued to the first.
   */
  lemma SecretReusedIff(h: string, peer: string, h': string, peer': string, secret: string, p: Platform)
    requires ValidPeer(h, peer, p) && ValidPeer(h', peer', p)
    ensures (exists t, t' :: IsToken(t) && IsToken(t') && Reuses(PeerForm(h, peer, t), PeerForm(h', peer', t'), secret, p))
       <==> MeetsCleanly(Prefix(h, peer), Prefix(h', peer'))
  {
    hide Reuses, MeetsCleanly, Parse, FormEnv;
    forall t, t' | IsToken(t) && IsToken(t')
      ensures Reuses(PeerForm(h, peer, t), PeerForm(h', peer', t'), secret, p) <==> Key(h, peer, t) == Key(h', peer', t')
    {
      FormNeedsClaim(h, peer, t, p);
      FormNeedsClaim(h', peer', t', p);
      ReusesIffSameKey(PeerForm(h, peer, t), PeerForm(h', peer', t'), secret, p);
    }
    TokensCanMeetIff(h, peer, h', peer');
    if exists t, t' :: IsToken(t) && IsToken(t') && Reuses(PeerForm(h, peer, t), PeerForm(h', peer', t'), secret, p) {
      var t, t' :| IsToken(t) && IsToken(t') && Reuses(PeerForm(h, peer, t), PeerForm(h', peer', t'), secret, p);
      assert Key(h, peer, t) == Key(h', peer', t');
    }
    if exists t, t' :: IsToken(t) && IsToken(t') && Key(h, peer, t) == Key(h', peer', t') {
      var t, t' :| IsToken(t) && IsToken(t') && Key(h, peer, t) == Key(h', peer', t');
      assert Reuses(PeerForm(h, peer, t), PeerForm(h', peer', t'), secret, p);
    }
  }

  lemma PressKeepsCacheIssued(s: State, call: Call, p: Platform)
    requires CacheIsIssued(s)
    ensures CacheIsIssued(Press(s, call, p).state)
    ensures s.issued <= Press(s, call, p).state.issued
  {
    var t := Press(s, call, p).state;
    HandleClaims(s, call, ParseForm(call.form, p));
    if t == s {
    } else {
      assert IsFor(t.issued[|s.issued|], t.cached.value.key, t.cached.value.secret);
    }
  }

  lemma {:induction false} CacheStaysIssued(calls: seq<Call>, p: Platform)
    ensures CacheIsIssued(After(State(None, []), calls, p))
  {
    if calls != [] {
      CacheStaysIssued(calls[..|calls| - 1], p);
      PressKeepsCacheIssued(After(State(None, []), calls[..|calls| - 1], p), calls[|calls| - 1], p);
    }
  }

  /** After any calls, a save that needed a claim wrote a secret the hub issued for its key, and no token. */
  lemma SavedSecretWasIssued(calls: seq<Call>, save: Call, p: Platform) returns (i: nat)
    requires NeedsClaim(save, p)
    requires Press(After(State(None, []), calls, p), save, p).written.Some?
    ensures var done := Press(After(State(None, []), calls, p), save, p);
      && i < |done.state.issued| && done.written.value.peerSecret.Some? && done.written.value.bootstrapToken == None
      && IsFor(done.state.issued[i], KeyOf(ParseForm(save.form, p).value), done.written.value.peerSecret.value)
      && done.written.value.hubUrl == ParseForm(save.form, p).value.hubUrl
      && done.written.value.peerId == ParseForm(save.form, p).value.peerId
  {
    var s := After(State(None, []), calls, p);
    CacheStaysIssued(calls, p);
    PressKeepsCacheIssued(s, save, p);
    var t := Press(s, save, p).state;
    HandleClaims(s, save, ParseForm(save.form, p));
    i :| 0 <= i < |t.issued| && IsFor(t.issued[i], t.cached.value.key, t.cached.value.secret);
  }

  /** So, where neither the form nor any earlier claim has a `|` in hub or peer, it was issued to that very peer. */
  lemma SavedSecretIsThisPeers(calls: seq<Call>, save: Call, p: Platform) returns (i: nat)
    requires NeedsClaim(save, p)
    requires Press(After(State(None, []), calls, p), save, p).written.Some?
    requires '|' !in ParseForm(save.form, p).value.hubUrl && '|' !in ParseForm(save.form, p).value.peerId
    requires forall claim | claim in Press(After(State(None, []), calls, p), save, p).state.issued ::
      '|' !in claim.hubUrl && '|' !in claim.peerId
    ensures var done := Press(After(State(None, []), calls, p), save, p);
      && done.written.value.bootstrapToken == None && i < |done.state.issued|
      && done.written.value.peerSecret == Some(done.state.issued[i].secret)
      && done.state.issued[i].hubUrl == done.written.value.hubUrl
      && done.state.issued[i].peerId == done.written.value.peerId
      && ParseForm(save.form, p).value.bootstrapToken == Some(done.state.issued[i].token)
  {
    i := SavedSecretWasIssued(calls, save, p);
    var claim := Press(After(State(None, []), calls, p), save, p).state.issued[i];
    var c := ParseForm(save.form, p).value;
    KeyIsInjective(claim.hubUrl, claim.peerId, claim.token, c.hubUrl, c.peerId, c.bootstrapToken.value);
  }

  /** A start offers the form exactly when it should. */
  lemma SetupIsOfferedWhenDue(file: File, s: Start)
    ensures RunOnce(file, s).outcome == SetupNeeded
       <==> ShouldStartSetup(file.Some?, Merged(FileEnv(file), s.env), s.platform)
  {
    ProceedAsks(file, Parsed(file, s), s);
  }

  /** A saved claim whose secret reads as something survives every later start, in any environment. */
  lemma SavedClaimHolds(s: State, save: Call, p: Platform, starts: seq<Start>)
    requires NeedsClaim(save, p) && Press(s, save, p).written.Some?
    requires var c := Press(s, save, p).written.value;
      c.peerSecret.Some? && c.hubSecret.Some? ==> ReadBack(c.peerSecret.value, c.hubSecret.value) != ""
    ensures var c := Press(s, save, p).written.value;
      var file := Some(Serialize(c, p));
      && c.peerSecret.Some? && c.hubSecret.Some? && SecretOf(file) == ReadBack(c.peerSecret.value, c.hubSecret.value)
      && FileAfter(file, starts) == file
  {
    HandleClaims(s, save, ParseForm(save.form, p));
    var c := Press(s, save, p).written.value;
    WrittenSecret(c, p);
    SecretStays(Some(Serialize(c, p)), starts);
  }

  // ------------------------------------------------------------- what is answered

  /** The claim a call needs can be had: cached for its key, or granted now. */
  predicate Granted(s: State, call: Call, p: Platform)
    requires NeedsClaim(call, p)
  {
    (s.cached.Some? && s.cached.value.key == KeyOf(ParseForm(call.form, p).value)) || call.answer.Some?
  }

  /**
   A save answers 200 exactly when a configuration was written, and otherwise says what stood in the way:
   the form, the hub or the disk, in that order.
   */
  lemma SaveAnswers(s: State, call: Call, p: Platform)
    requires call.Save?
    ensures var done := Press(s, call, p);
      && (done.status == 200 <==> done.written.Some?)
      && (done.status == 400 <==> ParseForm(call.form, p).Err?)
      && (done.status == 502 <==> NeedsClaim(call, p) && !Granted(s, call, p))
      && (done.status == 500 <==> ParseForm(call.form, p).Ok? && (NeedsClaim(call, p) ==> Granted(s, call, p)) && !call.writable)
      && done.status in {200, 400, 500, 502}
  {
    hide ParseForm, Key, Claimed, WithHubSecret;
  }

  /** A test answers 200 exactly when the form is a configuration, the hub is reachable and a claim it needs can be had; it writes nothing. */
  lemma TestAnswers(s: State, call: Call, p: Platform)
    requires call.Test?
    ensures var done := Press(s, call, p);
      && done.written == None
      && (done.status == 200 <==>
            ParseForm(call.form, p).Ok? && call.reachable && (NeedsClaim(call, p) ==> Granted(s, call, p)))
      && (done.status == 400 <==> ParseForm(call.form, p).Err?)
      && done.status in {200, 400, 502}
  {
    hide ParseForm, Key, Claimed, WithHubSecret;
  }

  /** What a save writes: the form's configuration, with a hub secret in any case, and the issued secret in place of a token. */
  lemma SaveWrites(s: State, call: Call, p: Platform)
    requires call.Save? && Press(s, call, p).written.Some?
    ensures ParseForm(call.form, p).Ok?
    ensures var c, done := ParseForm(call.form, p).value, Press(s, call, p);
      var hub := Some(if c.hubSecret.Some? then c.hubSecret.value else call.random);
      done.written.value ==
        if NeedsClaim(call, p) then c.(peerSecret := done.written.value.peerSecret, bootstrapToken := None, hubSecret := hub)
        else c.(hubSecret := hub)
  {
    hide ParseForm, Key;
  }

  /** How the form's one token and its TLS box are taken. */
  lemma FormChoices(f: Form)
    ensures var e := FormEnv(f);
      && ("PEER_TOKEN" in e <==> f.authMode == ByToken && f.token.Some?)
      && ("BOOTSTRAP_TOKEN" in e <==> f.authMode == ByBootstrap && f.token.Some?)
      && (f.authMode == ByToken && f.token.Some? ==> e["PEER_TOKEN"] == f.token.value)
      && (f.authMode == ByBootstrap && f.token.Some? ==> e["BOOTSTRAP_TOKEN"] == f.token.value)
      && Truthy(e, "TLS_INSECURE") == f.tlsInsecure
  {
    KnownAddresses();
    KnownSettings();
    KnownSecrets();
  }
}
