/**
 The event pipeline of the tamper-evident logger: redact, enrich, sign.

 A signature is a term of a free datatype: a keyed hash is known by exactly the
 key and the text it was computed from, and no other value equals it.
 */
module Pipeline {
  import opened Prelude
  import opened Text
  import opened Json

  datatype Level = Debug | Info | Warn | Error | Fatal
  datatype Category = App | Audit | Security

  /** `prevHash` and `signature` values. `Garbage` is any text that no keyed hash yields. */
  datatype Signature =
    | Genesis
    | Mac(key: string, prev: Signature, seqNo: int, text: string)
    | Garbage(raw: string)

  datatype LogInput = LogInput(
    level: Level, category: Category, eventCode: string, message: string, context: Option<Json>,
    correlationId: Option<string>, service: Option<string>, host: Option<string>, ts: Option<string>)

  datatype LogEvent = LogEvent(
    level: Level, category: Category, eventCode: string, message: string, context: Option<Json>,
    correlationId: Option<string>, service: Option<string>, host: Option<string>, ts: string,
    seqNo: int, prevHash: Signature, signature: Signature)

  datatype SigningState = SigningState(seqNo: int, prevHash: Signature)

  const START := SigningState(1, Genesis)

  // ------------------------------------------------------------------ redaction

  const REDACTED := Str("[REDACTED]")

  function LowerChar(c: char): char {
    if 'A' <= c <= 'Z' then ((c as int) + 32) as char else c
  }

  function Lower(s: string): string { seq(|s|, i requires 0 <= i < |s| => LowerChar(s[i])) }

  predicate Contains(s: string, part: string) {
    exists i | 0 <= i <= |s| - |part| :: OccursAt(s, part, i)
  }

  predicate OccursAt(s: string, part: string, i: nat)
    requires i + |part| <= |s|
  {
    s[i..i + |part|] == part
  }

  predicate Sensitive(key: string, redactionKeys: seq<string>) {
    exists i | 0 <= i < |redactionKeys| :: Contains(Lower(key), Lower(redactionKeys[i]))
  }

  /** `redactValue` on values. */
  function Redacted(v: Json, redactionKeys: seq<string>): Json {
    match v
    case Arr(items) => Arr(seq(|items|, i requires 0 <= i < |items| => Redacted(items[i], redactionKeys)))
    case Obj(fields) => Obj(seq(|fields|, i requires 0 <= i < |fields| => RedactedField(fields[i], redactionKeys)))
    case _ => v
  }

  function RedactedField(f: Field, redactionKeys: seq<string>): Field {
    Field(f.key, if Sensitive(f.key, redactionKeys) then REDACTED else Redacted(f.value, redactionKeys))
  }

  method RedactValue(v: Json, redactionKeys: seq<string>) returns (r: Json)
    ensures r == Redacted(v, redactionKeys)
    decreases v
  {
    match v
    case Arr(items) =>
      var out: seq<Json> := [];
      for i := 0 to |items|
        invariant |out| == i && forall k | 0 <= k < i :: out[k] == Redacted(items[k], redactionKeys)
      {
        var item := RedactValue(items[i], redactionKeys);
        out := out + [item];
      }
      r := Arr(out);
    case Obj(fields) =>
      var out: seq<Field> := [];
      for i := 0 to |fields|
        invariant |out| == i && forall k | 0 <= k < i :: out[k] == RedactedField(fields[k], redactionKeys)
      {
        var value := REDACTED;
        if !Sensitive(fields[i].key, redactionKeys) {
          value := RedactValue(fields[i].value, redactionKeys);
        }
        out := out + [Field(fields[i].key, value)];
      }
      r := Obj(out);
    case _ =>
      r := v;
  }

  /** No value is left under a sensitive key, at any depth. */
  ghost predicate SecretFree(v: Json, redactionKeys: seq<string>) {
    match v
    case Arr(items) => forall i | 0 <= i < |items| :: SecretFree(items[i], redactionKeys)
    case Obj(fields) =>
      forall i | 0 <= i < |fields| ::
        if Sensitive(fields[i].key, redactionKeys) then fields[i].value == Str("[REDACTED]")
        else SecretFree(fields[i].value, redactionKeys)
    case _ => true
  }

  /** Equal except for what lies below sensitive keys. */
  ghost predicate EqualOutsideSecrets(v: Json, w: Json, redactionKeys: seq<string>) {
    match (v, w)
    case (Arr(a), Arr(b)) =>
      |a| == |b| && forall i | 0 <= i < |a| :: EqualOutsideSecrets(a[i], b[i], redactionKeys)
    case (Obj(a), Obj(b)) =>
      |a| == |b| && forall i | 0 <= i < |a| ::
        a[i].key == b[i].key
        && (Sensitive(a[i].key, redactionKeys) || EqualOutsideSecrets(a[i].value, b[i].value, redactionKeys))
    case _ => v == w
  }

  /** Redaction leaves no secret, and leaves a value alone exactly when it holds none. */
  lemma {:induction false} RedactionRemovesSecrets(v: Json, redactionKeys: seq<string>)
    ensures SecretFree(Redacted(v, redactionKeys), redactionKeys)
    ensures Redacted(v, redactionKeys) == v <==> SecretFree(v, redactionKeys)
    decreases v
  {
    match v
    case Arr(items) =>
      var r := Redacted(v, redactionKeys);
      forall i | 0 <= i < |items|
        ensures SecretFree(r.items[i], redactionKeys)
        ensures r.items[i] == items[i] <==> SecretFree(items[i], redactionKeys)
      {
        RedactionRemovesSecrets(items[i], redactionKeys);
      }
    case Obj(fields) =>
      var r := Redacted(v, redactionKeys);
      forall i | 0 <= i < |fields|
        ensures Sensitive(fields[i].key, redactionKeys) || SecretFree(r.fields[i].value, redactionKeys)
        ensures Sensitive(fields[i].key, redactionKeys) ||
                (r.fields[i] == fields[i] <==> SecretFree(fields[i].value, redactionKeys))
      {
        assert r.fields[i] == RedactedField(fields[i], redactionKeys);
        if !Sensitive(fields[i].key, redactionKeys) { RedactionRemovesSecrets(fields[i].value, redactionKeys); }
      }
    case _ =>
  }

  /** Redaction forgets exactly what lies below sensitive keys, and nothing else. */
  lemma {:induction false} RedactionKeepsTheRest(v: Json, w: Json, redactionKeys: seq<string>)
    ensures Redacted(v, redactionKeys) == Redacted(w, redactionKeys) <==> EqualOutsideSecrets(v, w, redactionKeys)
    decreases v
  {
    var x, y := Redacted(v, redactionKeys), Redacted(w, redactionKeys);
    match (v, w)
    case (Arr(a), Arr(b)) =>
      assert |x.items| == |a| && |y.items| == |b|;
      if |a| == |b| {
        forall i | 0 <= i < |a|
          ensures x.items[i] == y.items[i] <==> EqualOutsideSecrets(a[i], b[i], redactionKeys)
        {
          RedactionKeepsTheRest(a[i], b[i], redactionKeys);
        }
      }
    case (Obj(a), Obj(b)) =>
      assert |x.fields| == |a| && |y.fields| == |b|;
      if |a| == |b| {
        forall i | 0 <= i < |a|
          ensures x.fields[i] == y.fields[i] <==>
                  a[i].key == b[i].key
                  && (Sensitive(a[i].key, redactionKeys) || EqualOutsideSecrets(a[i].value, b[i].value, redactionKeys))
        {
          assert x.fields[i] == RedactedField(a[i], redactionKeys) && y.fields[i] == RedactedField(b[i], redactionKeys);
          RedactionKeepsTheRest(a[i].value, b[i].value, redactionKeys);
        }
      }
    case _ =>
  }

  lemma {:induction false} RedactionKeepsWellFormed(v: Json, redactionKeys: seq<string>)
    requires WellFormed(v)
    ensures WellFormed(Redacted(v, redactionKeys))
    decreases v
  {
    match v
    case Arr(items) =>
      forall i | 0 <= i < |items| ensures WellFormed(Redacted(v, redactionKeys).items[i]) {
        RedactionKeepsWellFormed(items[i], redactionKeys);
      }
    case Obj(fields) =>
      forall i | 0 <= i < |fields| ensures WellFormed(Redacted(v, redactionKeys).fields[i].value) {
        RedactionKeepsWellFormed(fields[i].value, redactionKeys);
      }
    case _ =>
  }

  /** The same letter, but perhaps for its case; any other character is only the same as itself. */
  predicate SameLetter(c: char, d: char) {
    c == d || ('a' <= c <= 'z' && (c as int) - (d as int) == 32) || ('a' <= d <= 'z' && (d as int) - (c as int) == 32)
  }

  /** The redaction key stands in the key from position `i` on, letter case aside. */
  ghost predicate StandsAt(key: string, part: string, i: nat) {
    i + |part| <= |key| && forall j | 0 <= j < |part| :: SameLetter(key[i + j], part[j])
  }

  /** A key is sensitive exactly when some redaction key stands anywhere in it, letter case aside. */
  lemma SensitiveIff(key: string, redactionKeys: seq<string>)
    ensures Sensitive(key, redactionKeys) <==> exists r, i: nat :: r in redactionKeys && StandsAt(key, r, i)
  {
    forall r: string, i: nat | i + |r| <= |key|
      ensures OccursAt(Lower(key), Lower(r), i) <==> StandsAt(key, r, i)
    {
      OccursIff(key, r, i);
    }
    if Sensitive(key, redactionKeys) {
      var n :| 0 <= n < |redactionKeys| && Contains(Lower(key), Lower(redactionKeys[n]));
      var i :| 0 <= i <= |Lower(key)| - |Lower(redactionKeys[n])| && OccursAt(Lower(key), Lower(redactionKeys[n]), i);
      assert redactionKeys[n] in redactionKeys && StandsAt(key, redactionKeys[n], i);
    }
    if exists r, i: nat :: r in redactionKeys && StandsAt(key, r, i) {
      var r, i: nat :| r in redactionKeys && StandsAt(key, r, i);
      assert OccursAt(Lower(key), Lower(r), i);
      var n :| 0 <= n < |redactionKeys| && redactionKeys[n] == r;
      assert Contains(Lower(key), Lower(redactionKeys[n]));
    }
  }

  lemma OccursIff(key: string, r: string, i: nat)
    requires i + |r| <= |key|
    ensures OccursAt(Lower(key), Lower(r), i) <==> StandsAt(key, r, i)
  {
    var a, b := Lower(key)[i..i + |r|], Lower(r);
    forall j | 0 <= j < |r| ensures a[j] == b[j] <==> SameLetter(key[i + j], r[j]) {
      assert a[j] == LowerChar(key[i + j]) && b[j] == LowerChar(r[j]);
    }
    if StandsAt(key, r, i) { assert forall j | 0 <= j < |r| :: a[j] == b[j]; }
  }

  /** `redactEvent`: only the context changes. */
  function RedactEvent(input: LogInput, redactionKeys: seq<string>): LogInput {
    match input.context
    case None => input
    case Some(c) => input.(context := Some(Redacted(c, redactionKeys)))
  }

  // ---------------------------------------------------------- enrich and sign

  /** What the environment supplies for a missing field. */
  datatype Supply = Supply(service: string, host: string, correlationId: string, now: string)

  /** `enrichEvent`; the signature is not yet known. */
  function Enrich(input: LogInput, state: SigningState, supply: Supply): LogEvent {
    LogEvent(input.level, input.category, input.eventCode, input.message, input.context,
             Some(input.correlationId.GetOr(supply.correlationId)),
             Some(input.service.GetOr(supply.service)), Some(input.host.GetOr(supply.host)),
             input.ts.GetOr(supply.now), state.seqNo, state.prevHash, Garbage(""))
  }

  function LevelText(l: Level): string {
    match l
    case Debug => "debug" case Info => "info" case Warn => "warn" case Error => "error" case Fatal => "fatal"
  }

  function CategoryText(c: Category): string {
    match c
    case App => "app" case Audit => "audit" case Security => "security"
  }

  function ContextOf(e: LogEvent): Json { e.context.GetOr(Obj([])) }

  function Line(text: string, rest: string): string { text + ['\n'] + rest }

  /** The five lines after the message; the last one is the empty signature. */
  function After(text: string, e: LogEvent): string {
    Line(Line(Line(Line(Line(text, ContextText(ContextOf(e))),
                        e.correlationId.GetOr("")), e.service.GetOr("")), e.host.GetOr("")), "")
  }

  /** `canonicalize` of the event with an empty signature. */
  function Canonical(e: LogEvent): string {
    Line(e.ts, Line(LevelText(e.level), Line(CategoryText(e.category), Line(e.eventCode, After(e.message, e)))))
  }

  /** The fields in the order in which the program joins them, one to a line. */
  function Fields(e: LogEvent): seq<string> {
    [e.ts, LevelText(e.level), CategoryText(e.category), e.eventCode, e.message, ContextText(ContextOf(e)),
     e.correlationId.GetOr(""), e.service.GetOr(""), e.host.GetOr(""), ""]
  }

  function JoinLines(lines: seq<string>): string
    requires lines != []
  {
    if |lines| == 1 then lines[0] else JoinLines(lines[..|lines| - 1]) + ['\n'] + lines[|lines| - 1]
  }

  /** The canonical text is these ten lines. */
  lemma CanonicalIsJoin(e: LogEvent)
    ensures Canonical(e) == JoinLines(Fields(e))
  {
    hide ContextText, LevelText, CategoryText;
    var f := Fields(e);
    var head := Line(e.ts, Line(LevelText(e.level), Line(CategoryText(e.category), e.eventCode)));
    assert JoinLines(f[..1]) == e.ts;
    JoinNext(f, 1);
    JoinNext(f, 2);
    JoinNext(f, 3);
    assert JoinLines(f[..4]) == head by {
      LineInLine(e.ts, f[1], f[2]);
      LineInLine(e.ts, Line(f[1], f[2]), f[3]);
      LineInLine(f[1], f[2], f[3]);
    }
    JoinNext(f, 4);
    JoinNext(f, 5);
    JoinNext(f, 6);
    JoinNext(f, 7);
    JoinNext(f, 8);
    JoinNext(f, 9);
    assert f[..10] == f;
    AfterHead(head, e);
    HeadLines(e.ts, f[1], f[2], f[3], After(f[4], e));
  }

  /** The words that stand for levels and categories. */
  lemma Words()
    ensures [LevelText(Debug), LevelText(Info), LevelText(Warn), LevelText(Error), LevelText(Fatal)]
         == ["debug", "info", "warn", "error", "fatal"]
    ensures [CategoryText(App), CategoryText(Audit), CategoryText(Security)] == ["app", "audit", "security"]
  {
  }

  /** One event's canonical text, character by character. */
  lemma SampleText(e: LogEvent)
    requires e.ts == "t" && e.level == Warn && e.category == Security && e.eventCode == "code" && e.message == "hello"
    requires e.context == Some(Obj([Field("b", Null), Field("a\"", Bool(true))]))
    requires e.correlationId == None && e.service == Some("svc") && e.host == None
    ensures Canonical(e) == "t\nwarn\nsecurity\ncode\nhello\n" + "{\"a\\\"\":true,\"b\":null}" + "\n\nsvc\n\n"
  {
    hide ContextText, LevelText, CategoryText;
    Words();
    SampleContext();
    var c := "{\"a\\\"\":true,\"b\":null}";
    SampleTail(e, c);
    SampleHead("hello\n" + c + "\n\nsvc\n\n");
    assert "t\nwarn\nsecurity\ncode\n" + ("hello\n" + c + "\n\nsvc\n\n") == "t\nwarn\nsecurity\ncode\nhello\n" + c + "\n\nsvc\n\n";
  }

  lemma SampleTail(e: LogEvent, c: string)
    requires ContextText(ContextOf(e)) == c && e.correlationId == None && e.service == Some("svc") && e.host == None
    ensures After("hello", e) == "hello\n" + c + "\n\nsvc\n\n"
  {
    hide ContextText;
    var m := Line("hello", c);
    assert m == "hello\n" + c;
    assert Line(m, "") == m + "\n";
    assert Line(m + "\n", "svc") == m + "\n\nsvc";
    assert Line(m + "\n\nsvc", "") == m + "\n\nsvc\n";
    assert Line(m + "\n\nsvc\n", "") == m + "\n\nsvc\n\n";
  }

  lemma SampleHead(rest: string)
    ensures Line("t", Line("warn", Line("security", Line("code", rest)))) == "t\nwarn\nsecurity\ncode\n" + rest
  {
    assert Line("code", rest) == "code\n" + rest;
    assert Line("security", "code\n" + rest) == "security\ncode\n" + rest;
    assert Line("warn", "security\ncode\n" + rest) == "warn\nsecurity\ncode\n" + rest;
  }

  lemma SampleContext()
    ensures ContextText(Obj([Field("b", Null), Field("a\"", Bool(true))])) == "{\"a\\\"\":true,\"b\":null}"
  {
    PrintedValues(0);
    EscapedForms();
    var b, a := Field("b", Null), Field("a\"", Bool(true));
    SampleSorted(a, b);
    PrintedObject(a, b);
  }

  lemma SampleSorted(a: Field, b: Field)
    requires a.key == "a\"" && b.key == "b" && a.value == Bool(true) && b.value == Null
    ensures Sorted(Obj([b, a])) == Obj([a, b])
  {
    assert KeyLess(a.key, b.key) && !KeyLess(b.key, a.key);
    assert [b, a][1..] == [a] && [a][1..] == [];
    assert Insert(a, []) == [a] && Insert(b, [a]) == [a] + Insert(b, []);
    assert SortFields([b, a]) == [a, b];
    assert SortedValues(Obj([b, a])) == [b, a];
  }

  lemma QuotedOne(s: string, c: char, rest: string)
    requires s == [c] && EscapeChar(c) == [c]
    ensures QuoteThen(s, rest) == ['"', c, '"'] + rest
  {
    assert s[1..] == "";
    assert EscapeThen(s, rest) == [c] + (['"'] + rest);
  }

  lemma PrintedObject(a: Field, b: Field)
    requires a.key == "a\"" && b.key == "b" && a.value == Bool(true) && b.value == Null
    ensures Print(Obj([a, b])) == "{\"a\\\"\":true,\"b\":null}"
  {
    hide QuoteThen, FieldThen;
    assert [a, b][1..] == [b] && [b][1..] == [];
    assert FieldsThen([], "") == "}";
    PrintedSecond(b);
    assert FieldsThen([b], "") == ",\"b\":null}";
    PrintedFirst(a, ",\"b\":null}");
    assert FieldThen(a, ",\"b\":null}") == "\"a\\\"\":true" + ",\"b\":null}";
    assert "\"a\\\"\":true" + ",\"b\":null}" == "\"a\\\"\":true,\"b\":null}";
  }

  lemma PrintedSecond(b: Field)
    requires b.key == "b" && b.value == Null
    ensures FieldThen(b, "}") == "\"b\":null}"
  {
    hide QuoteThen;
    assert PrintThen(b.value, "}") == "null}";
    assert [':'] + "null}" == ":null}";
    QuotedOne("b", 'b', ":null}");
  }

  lemma PrintedFirst(a: Field, rest: string)
    requires a.key == "a\"" && a.value == Bool(true)
    ensures FieldThen(a, rest) == "\"a\\\"\":true" + rest
  {
    var after := [':'] + ("true" + rest);
    assert PrintThen(a.value, rest) == "true" + rest;
    assert "a\""[1..] == "\"" && "\""[1..] == "";
    assert EscapeThen("", after) == ['"'] + after;
    assert EscapeThen("\"", after) == "\\\"" + (['"'] + after);
    assert EscapeThen("a\"", after) == "a" + ("\\\"" + (['"'] + after));
    assert QuoteThen("a\"", after) == "\"a\\\"\":true" + rest;
  }

  /** An absent context is printed as an empty object, other absent fields as empty lines. */
  lemma AbsentFields(e: LogEvent)
    ensures ContextText(ContextOf(e.(context := None))) == "{}"
    ensures Canonical(e.(context := None)) == Canonical(e.(context := Some(Obj([]))))
    ensures Canonical(e.(correlationId := None)) == Canonical(e.(correlationId := Some("")))
    ensures Canonical(e.(service := None)) == Canonical(e.(service := Some("")))
    ensures Canonical(e.(host := None)) == Canonical(e.(host := Some("")))
  {
    assert SortFields([]) == [];
  }

  lemma JoinNext(f: seq<string>, n: nat)
    requires 0 < n < |f|
    ensures JoinLines(f[..n + 1]) == Line(JoinLines(f[..n]), f[n])
  {
    TakeTake(f, n, n + 1);
  }

  lemma HeadLines(a: string, b: string, c: string, d: string, rest: string)
    ensures Line(a, Line(b, Line(c, Line(d, rest)))) == Line(Line(a, Line(b, Line(c, d))), rest)
  {
    LineInLine(a, Line(b, Line(c, d)), rest);
    LineInLine(b, Line(c, d), rest);
    LineInLine(c, d, rest);
  }

  /** Lines after a first one. */
  lemma AfterHead(head: string, e: LogEvent)
    ensures Line(head, After(e.message, e)) == After(Line(head, e.message), e)
  {
    var t1 := Line(e.message, ContextText(ContextOf(e)));
    var t2 := Line(t1, e.correlationId.GetOr(""));
    var t3 := Line(t2, e.service.GetOr(""));
    var t4 := Line(t3, e.host.GetOr(""));
    LineInLine(head, e.message, ContextText(ContextOf(e)));
    LineInLine(head, t1, e.correlationId.GetOr(""));
    LineInLine(head, t2, e.service.GetOr(""));
    LineInLine(head, t3, e.host.GetOr(""));
    LineInLine(head, t4, "");
  }

  /** The exact text handed to the keyed hash, for a previous hash printed as `prevText`. */
  function SigningText(prevText: string, e: LogEvent): string {
    Line(prevText, Line(NumberThen(e.seqNo, ""), Canonical(e)))
  }

  function SignatureOf(e: LogEvent, key: string): Signature {
    Mac(key, e.prevHash, e.seqNo, Canonical(e))
  }

  function SignEvent(enriched: LogEvent, key: string): LogEvent {
    enriched.(signature := SignatureOf(enriched, key))
  }

  function NextState(state: SigningState, signature: Signature): SigningState {
    SigningState(state.seqNo + 1, signature)
  }

  predicate VerifySignature(e: LogEvent, key: string) { e.signature == SignatureOf(e, key) }

  // ------------------------------------------------- what the signing text fixes

  predicate OneLine(s: string) { '\n' !in s }

  /** Every text field except the message is a single line; context keys are distinct. */
  predicate LineSafe(e: LogEvent) {
    && OneLine(e.ts) && OneLine(e.eventCode)
    && OneLine(e.correlationId.GetOr("")) && OneLine(e.service.GetOr("")) && OneLine(e.host.GetOr(""))
    && WellFormed(ContextOf(e))
  }

  /** Equal content, up to context key order and the defaults of absent fields. */
  ghost predicate SameContent(e: LogEvent, f: LogEvent) {
    && e.ts == f.ts && e.level == f.level && e.category == f.category
    && e.eventCode == f.eventCode && e.message == f.message
    && Similar(ContextOf(e), ContextOf(f))
    && e.correlationId.GetOr("") == f.correlationId.GetOr("")
    && e.service.GetOr("") == f.service.GetOr("")
    && e.host.GetOr("") == f.host.GetOr("")
  }

  lemma AfterInjective(m: string, e: LogEvent, n: string, f: LogEvent)
    requires LineSafe(e) && LineSafe(f) && After(m, e) == After(n, f)
    ensures m == n && ContextText(ContextOf(e)) == ContextText(ContextOf(f))
    ensures e.correlationId.GetOr("") == f.correlationId.GetOr("")
    ensures e.service.GetOr("") == f.service.GetOr("") && e.host.GetOr("") == f.host.GetOr("")
  {
    var c, d := ContextText(ContextOf(e)), ContextText(ContextOf(f));
    PrintOneLine(Sorted(ContextOf(e)), "");
    PrintOneLine(Sorted(ContextOf(f)), "");
    var m1, n1 := Line(m, c), Line(n, d);
    var m2, n2 := Line(m1, e.correlationId.GetOr("")), Line(n1, f.correlationId.GetOr(""));
    var m3, n3 := Line(m2, e.service.GetOr("")), Line(n2, f.service.GetOr(""));
    var m4, n4 := Line(m3, e.host.GetOr("")), Line(n3, f.host.GetOr(""));
    CutLast(m4, "", n4, "", '\n');
    CutLast(m3, e.host.GetOr(""), n3, f.host.GetOr(""), '\n');
    CutLast(m2, e.service.GetOr(""), n2, f.service.GetOr(""), '\n');
    CutLast(m1, e.correlationId.GetOr(""), n1, f.correlationId.GetOr(""), '\n');
    CutLast(m, c, n, d, '\n');
  }

  lemma TextsTell(l: Level, m: Level, c: Category, d: Category)
    requires LevelText(l) == LevelText(m) && CategoryText(c) == CategoryText(d)
    ensures l == m && c == d
  {
    assert |LevelText(l)| == |LevelText(m)| && LevelText(l)[0] == LevelText(m)[0];
    assert CategoryText(c)[0] == CategoryText(d)[0];
  }

  /** Two events have one canonical text exactly when their content is the same, even when messages span lines. */
  lemma CanonicalIffSameContent(e: LogEvent, f: LogEvent)
    requires LineSafe(e) && LineSafe(f)
    ensures Canonical(e) == Canonical(f) <==> SameContent(e, f)
  {
    ContextTextIffSimilar(ContextOf(e), ContextOf(f));
    if Canonical(e) == Canonical(f) {
      var a4, b4 := After(e.message, e), After(f.message, f);
      var a3, b3 := Line(e.eventCode, a4), Line(f.eventCode, b4);
      var a2, b2 := Line(CategoryText(e.category), a3), Line(CategoryText(f.category), b3);
      var a1, b1 := Line(LevelText(e.level), a2), Line(LevelText(f.level), b2);
      CutFirst(e.ts, a1, f.ts, b1, '\n');
      CutFirst(LevelText(e.level), a2, LevelText(f.level), b2, '\n');
      CutFirst(CategoryText(e.category), a3, CategoryText(f.category), b3, '\n');
      CutFirst(e.eventCode, a4, f.eventCode, b4, '\n');
      TextsTell(e.level, f.level, e.category, f.category);
      AfterInjective(e.message, e, f.message, f);
    }
  }

  /** The five text fields besides the time stamp are single lines. */
  predicate OneLineFields(e: LogEvent) {
    OneLine(e.eventCode) && OneLine(e.message)
    && OneLine(e.correlationId.GetOr("")) && OneLine(e.service.GetOr("")) && OneLine(e.host.GetOr(""))
  }

  lemma LineNewlines(text: string, rest: string)
    ensures Newlines(Line(text, rest)) == Newlines(text) + 1 + Newlines(rest)
  {
    NewlinesJoin(text + ['\n'], rest);
    NewlinesJoin(text, ['\n']);
  }

  function FieldNewlines(e: LogEvent): nat {
    Newlines(e.ts) + Newlines(e.eventCode) + Newlines(e.message)
    + Newlines(e.correlationId.GetOr("")) + Newlines(e.service.GetOr("")) + Newlines(e.host.GetOr(""))
  }

  lemma AfterNewlines(e: LogEvent)
    ensures Newlines(After(e.message, e)) == 5 + Newlines(e.message) + Newlines(e.correlationId.GetOr(""))
                                             + Newlines(e.service.GetOr("")) + Newlines(e.host.GetOr(""))
  {
    hide Line;
    var c := ContextText(ContextOf(e));
    PrintOneLine(Sorted(ContextOf(e)), "");
    NoNewlines(c);
    var m1 := Line(e.message, c);
    var m2 := Line(m1, e.correlationId.GetOr(""));
    var m3 := Line(m2, e.service.GetOr(""));
    var m4 := Line(m3, e.host.GetOr(""));
    LineNewlines(e.message, c);
    LineNewlines(m1, e.correlationId.GetOr(""));
    LineNewlines(m2, e.service.GetOr(""));
    LineNewlines(m3, e.host.GetOr(""));
    LineNewlines(m4, "");
  }

  /** The canonical text has its nine separators and the newlines of its fields. */
  lemma CanonicalNewlines(e: LogEvent)
    ensures Newlines(Canonical(e)) == 9 + FieldNewlines(e)
  {
    hide Line, After;
    AfterNewlines(e);
    NoNewlines(LevelText(e.level));
    NoNewlines(CategoryText(e.category));
    var a4 := After(e.message, e);
    var a3 := Line(e.eventCode, a4);
    var a2 := Line(CategoryText(e.category), a3);
    var a1 := Line(LevelText(e.level), a2);
    LineNewlines(e.eventCode, a4);
    LineNewlines(CategoryText(e.category), a3);
    LineNewlines(LevelText(e.level), a2);
    LineNewlines(e.ts, a1);
  }

  lemma OneLineIffNoNewlines(e: LogEvent)
    ensures FieldNewlines(e) == 0 <==> OneLine(e.ts) && OneLineFields(e)
  {
    NoNewlines(e.ts);
    NoNewlines(e.eventCode);
    NoNewlines(e.message);
    NoNewlines(e.correlationId.GetOr(""));
    NoNewlines(e.service.GetOr(""));
    NoNewlines(e.host.GetOr(""));
  }

  /** An event of one-line fields shares its canonical text with no event of other content, however that is laid out. */
  lemma OneLineCanonicalFixesContent(e: LogEvent, f: LogEvent)
    requires OneLine(e.ts) && OneLineFields(e) && WellFormed(ContextOf(e)) && WellFormed(ContextOf(f))
    ensures Canonical(e) == Canonical(f) <==> SameContent(e, f)
  {
    CanonicalNewlines(e);
    CanonicalNewlines(f);
    OneLineIffNoNewlines(e);
    OneLineIffNoNewlines(f);
    if Canonical(e) == Canonical(f) || SameContent(e, f) { CanonicalIffSameContent(e, f); }
  }

  /**
   The hashed text determines the previous hash, the sequence number and the content: whatever
   event and previous hash are offered instead, line breaks included.
   */
  lemma SigningTextIff(p: string, e: LogEvent, q: string, f: LogEvent)
    requires OneLine(p) && OneLine(e.ts) && OneLineFields(e) && WellFormed(ContextOf(e)) && WellFormed(ContextOf(f))
    ensures SigningText(p, e) == SigningText(q, f) <==> p == q && e.seqNo == f.seqNo && SameContent(e, f)
  {
    OneLineCanonicalFixesContent(e, f);
    if SigningText(p, e) == SigningText(q, f) {
      var x, y := NumberThen(e.seqNo, ""), NumberThen(f.seqNo, "");
      PrintOneLine(Num(e.seqNo), "");
      PrintOneLine(Num(f.seqNo), "");
      OfferedHashIsOneLine(p, e, q, f);
      CutFirst(p, Line(x, Canonical(e)), q, Line(y, Canonical(f)), '\n');
      CutFirst(x, Canonical(e), y, Canonical(f), '\n');
      NumberPrefixFree(e.seqNo, f.seqNo, "", "");
    }
  }

  lemma OfferedHashIsOneLine(p: string, e: LogEvent, q: string, f: LogEvent)
    requires OneLine(p) && OneLine(e.ts) && OneLineFields(e) && SigningText(p, e) == SigningText(q, f)
    ensures OneLine(q)
  {
    hide Line, Canonical;
    var x, y := NumberThen(e.seqNo, ""), NumberThen(f.seqNo, "");
    PrintOneLine(Num(e.seqNo), "");
    NoNewlines(x);
    CanonicalNewlines(e);
    CanonicalNewlines(f);
    OneLineIffNoNewlines(e);
    LineNewlines(x, Canonical(e));
    LineNewlines(y, Canonical(f));
    LineNewlines(p, Line(x, Canonical(e)));
    LineNewlines(q, Line(y, Canonical(f)));
    NoNewlines(p);
    NoNewlines(q);
  }

  /**
   An event found with another event's signature verifies exactly when it says the same thing in
   the same place under the same key. Nothing is asked of the event found; the fields of the event
   that was signed must be single lines.
   */
  lemma TamperingDetected(original: LogEvent, key: string, found: LogEvent, checkKey: string)
    requires OneLine(original.ts) && OneLineFields(original)
    requires WellFormed(ContextOf(original)) && WellFormed(ContextOf(found))
    requires found.signature == SignEvent(original, key).signature
    ensures VerifySignature(found, checkKey) <==>
            && checkKey == key && found.prevHash == original.prevHash && found.seqNo == original.seqNo
            && SameContent(original, found)
  {
    OneLineCanonicalFixesContent(original, found);
  }

  // ---------------------------------------------------- what line breaks allow

  /** A line break in the code or the message can be moved across the line between them. */
  lemma MoveCodeAndMessage(e: LogEvent, code: string, message: string)
    requires Line(e.eventCode, e.message) == Line(code, message)
    ensures Canonical(e.(eventCode := code, message := message)) == Canonical(e)
  {
    var f := e.(eventCode := code, message := message);
    AfterShift(e.message, e);
    AfterShift(message, e);
    assert After(message, f) == After(message, e);
    LineThen(e.eventCode, e.message, After("", e));
    LineThen(code, message, After("", e));
  }

  lemma LineThen(a: string, b: string, rest: string)
    ensures Line(a, b + rest) == Line(a, b) + rest
  {
    Assoc(a + ['\n'], b, rest);
  }

  /** A line break in correlation id or service can be moved across the line between them. */
  lemma MoveCorrelationAndService(e: LogEvent, correlationId: string, service: string)
    requires Line(e.correlationId.GetOr(""), e.service.GetOr("")) == Line(correlationId, service)
    ensures Canonical(e.(correlationId := Some(correlationId), service := Some(service))) == Canonical(e)
  {
    var m := Line(e.message, ContextText(ContextOf(e)));
    LineInLine(m, e.correlationId.GetOr(""), e.service.GetOr(""));
    LineInLine(m, correlationId, service);
  }

  /** The same for service and host. */
  lemma MoveServiceAndHost(e: LogEvent, service: string, host: string)
    requires Line(e.service.GetOr(""), e.host.GetOr("")) == Line(service, host)
    ensures Canonical(e.(service := Some(service), host := Some(host))) == Canonical(e)
  {
    var m := Line(Line(e.message, ContextText(ContextOf(e))), e.correlationId.GetOr(""));
    LineInLine(m, e.service.GetOr(""), e.host.GetOr(""));
    LineInLine(m, service, host);
  }

  lemma LineInLine(m: string, a: string, b: string)
    ensures Line(Line(m, a), b) == Line(m, Line(a, b))
  {
    Assoc(m + ['\n'], a, ['\n']);
    Assoc(m + ['\n'], a + ['\n'], b);
  }

  /** An event of other content with the same canonical text, for any event with a line break in one of five fields. */
  lemma Twin(e: LogEvent) returns (f: LogEvent)
    requires !OneLineFields(e)
    ensures Canonical(f) == Canonical(e) && !SameContent(e, f) && f.context == e.context
    ensures f.seqNo == e.seqNo && f.prevHash == e.prevHash && f.signature == e.signature
  {
    var code, message, correlationId, service, host :=
      e.eventCode, e.message, e.correlationId.GetOr(""), e.service.GetOr(""), e.host.GetOr("");
    if !OneLine(code) {
      var a, b := CutAtNewline(code);
      f := e.(eventCode := a, message := Line(b, message));
      LineInLine(a, b, message);
      MoveCodeAndMessage(e, a, Line(b, message));
    } else if !OneLine(message) {
      var a, b := CutAtNewline(message);
      f := e.(eventCode := Line(code, a), message := b);
      LineInLine(code, a, b);
      MoveCodeAndMessage(e, Line(code, a), b);
    } else if !OneLine(correlationId) {
      var a, b := CutAtNewline(correlationId);
      f := e.(correlationId := Some(a), service := Some(Line(b, service)));
      LineInLine(a, b, service);
      MoveCorrelationAndService(e, a, Line(b, service));
    } else if !OneLine(service) {
      var a, b := CutAtNewline(service);
      f := e.(correlationId := Some(Line(correlationId, a)), service := Some(b));
      LineInLine(correlationId, a, b);
      MoveCorrelationAndService(e, Line(correlationId, a), b);
    } else {
      var a, b := CutAtNewline(host);
      f := e.(service := Some(Line(service, a)), host := Some(b));
      LineInLine(service, a, b);
      MoveServiceAndHost(e, Line(service, a), b);
    }
  }

  /** Events that share the canonical text of `e` without sharing its content. */
  ghost predicate Ambiguous(e: LogEvent) {
    exists f :: WellFormed(ContextOf(f)) && Canonical(f) == Canonical(e) && !SameContent(e, f)
  }

  /** A later line of the time stamp reads as a level and the next as a category: what follows could be an event. */
  ghost predicate HidesHeader(ts: string) {
    exists a, l, c :: BeginsWithHeader(ts, a, l, c)
  }

  /** After `a`, the time stamp goes on with a line for level `l` and a line for category `c`. */
  predicate BeginsWithHeader(ts: string, a: string, l: Level, c: Category) {
    var head := Line(a, Line(LevelText(l), CategoryText(c)));
    ts == head || head + ['\n'] <= ts
  }

  /** Such an event has a twin that starts at the hidden header. */
  lemma HeaderTwin(e: LogEvent, a: string, l: Level, c: Category) returns (f: LogEvent)
    requires BeginsWithHeader(e.ts, a, l, c)
    ensures Canonical(f) == Canonical(e) && f.ts != e.ts && f.context == e.context
  {
    var head := Line(a, Line(LevelText(l), CategoryText(c)));
    var own := Line(LevelText(e.level), Line(CategoryText(e.category), e.eventCode));
    var tail := After("", e);
    var ownCode := Line(CategoryText(e.category), Line(e.eventCode, e.message));
    if e.ts == head {
      f := e.(ts := a, level := l, category := c, eventCode := LevelText(e.level), message := ownCode);
      AfterShift(ownCode, e);
      AfterShift(e.message, e);
      assert After(f.message, f) == After(f.message, e);
      HeaderJoins(a, LevelText(l), CategoryText(c), Line(LevelText(e.level), ownCode + tail));
      OwnJoins(e, tail);
    } else {
      var b := e.ts[|head| + 1..];
      var rest := Line(LevelText(e.level), ownCode);
      f := e.(ts := a, level := l, category := c, eventCode := b, message := rest);
      assert e.ts == Line(head, b);
      AfterShift(rest, e);
      AfterShift(e.message, e);
      assert After(f.message, f) == After(f.message, e);
      LineThen(LevelText(e.level), ownCode, tail);
      LineInLine(head, b, Line(LevelText(e.level), ownCode + tail));
      HeaderJoins(a, LevelText(l), CategoryText(c), Line(b, Line(LevelText(e.level), ownCode + tail)));
      OwnJoins(e, tail);
    }
  }

  lemma HeaderJoins(a: string, l: string, c: string, rest: string)
    ensures Line(Line(a, Line(l, c)), rest) == Line(a, Line(l, Line(c, rest)))
  {
    LineInLine(a, Line(l, c), rest);
    LineInLine(l, c, rest);
  }

  lemma OwnJoins(e: LogEvent, tail: string)
    ensures Line(CategoryText(e.category), Line(e.eventCode, e.message)) + tail
         == Line(CategoryText(e.category), Line(e.eventCode, e.message + tail))
  {
    LineThen(e.eventCode, e.message, tail);
    LineThen(CategoryText(e.category), Line(e.eventCode, e.message), tail);
  }

  /** Where two splittings of one text into a front and a rest differ, the longer front contains the shorter. */
  lemma FrontsNest(a: string, r: string, b: string, t: string) returns (m: string)
    requires Line(a, r) == Line(b, t) && |a| < |b|
    ensures b == Line(a, m) && r == Line(m, t)
  {
    m := b[|a| + 1..];
    var x := Line(a, r);
    assert b == x[..|b|] && x[|a|] == '\n';
    assert a == x[..|a|] && r == x[|a| + 1..];
    assert t == x[|b| + 1..] && x[|b|] == '\n';
  }

  lemma FrontNotShorter(l: string, r: string, b: string, t: string)
    requires OneLine(l) && Line(l, r) == Line(b, t)
    ensures |l| <= |b|
  {
    NoNewlines(l);
    if |b| < |l| {
      var m := FrontsNest(b, t, l, r);
      LineNewlines(b, m);
    }
  }

  /** A single line in front of a text is its first line: the other front is the same or goes on after it. */
  lemma FirstLine(l: string, r: string, b: string, t: string) returns (same: bool, m: string)
    requires OneLine(l) && Line(l, r) == Line(b, t)
    ensures if same then l == b && r == t else b == Line(l, m) && r == Line(m, t)
  {
    same, m := |l| == |b|, "";
    var x := Line(l, r);
    if |l| < |b| {
      m := FrontsNest(l, r, b, t);
    } else {
      FrontNotShorter(l, r, b, t);
      assert l == x[..|l|] && b == x[..|b|] && r == x[|l| + 1..] && t == x[|b| + 1..];
    }
  }

  lemma LevelIsNoCategory(l: Level, c: Category)
    ensures LevelText(l) != CategoryText(c)
  {
    assert |LevelText(l)| > 3;
    assert LevelText(l)[1] != CategoryText(c)[1] || |LevelText(l)| != |CategoryText(c)|;
  }

  /** A shorter time stamp for the same text puts a hidden header into the longer one. */
  lemma ShorterStampHides(e: LogEvent, f: LogEvent)
    requires Canonical(e) == Canonical(f) && |f.ts| < |e.ts|
    ensures HidesHeader(e.ts)
  {
    hide Line, After;
    var own := Line(LevelText(e.level), Line(CategoryText(e.category), Line(e.eventCode, After(e.message, e))));
    var rest := Line(f.eventCode, After(f.message, f));
    var t2 := FrontsNest(f.ts, Line(LevelText(f.level), Line(CategoryText(f.category), rest)), e.ts, own);
    HeaderLines(f.level, f.category, rest, t2, e.level,
                Line(CategoryText(e.category), Line(e.eventCode, After(e.message, e))));
    HidesFrom(e.ts, f.ts, f.level, f.category, t2);
  }

  lemma HidesFrom(ts: string, a: string, l: Level, c: Category, t2: string)
    requires ts == Line(a, t2) && BeginsLines(t2, l, c)
    ensures HidesHeader(ts)
  {
    var pair := Line(LevelText(l), CategoryText(c));
    if t2 != pair {
      var b := t2[|pair| + 1..];
      assert t2 == Line(pair, b);
      LineInLine(a, pair, b);
    }
    assert BeginsWithHeader(ts, a, l, c);
  }

  predicate BeginsLines(t: string, l: Level, c: Category) {
    var pair := Line(LevelText(l), CategoryText(c));
    t == pair || pair + ['\n'] <= t
  }

  /** A front that swallows part of the time stamp swallows a level and a category line. */
  lemma HeaderLines(l: Level, c: Category, rest: string, t2: string, own: Level, ownRest: string)
    requires Line(LevelText(l), Line(CategoryText(c), rest)) == Line(t2, Line(LevelText(own), ownRest))
    ensures BeginsLines(t2, l, c)
  {
    var same, t3 := FirstLine(LevelText(l), Line(CategoryText(c), rest), t2, Line(LevelText(own), ownRest));
    if same {
      CutFirst(CategoryText(c), rest, LevelText(own), ownRest, '\n');
      LevelIsNoCategory(own, c);
    } else {
      var same', b := FirstLine(CategoryText(c), rest, t3, Line(LevelText(own), ownRest));
      if !same' { LineInLine(LevelText(l), CategoryText(c), b); }
    }
  }

  /** With one-line fields, another event of the same canonical text has no longer time stamp. */
  lemma StampIsLongest(e: LogEvent, f: LogEvent)
    requires OneLineFields(e) && Canonical(e) == Canonical(f)
    ensures |f.ts| <= |e.ts|
  {
    CanonicalNewlines(e);
    CanonicalNewlines(f);
    OneLineIffNoNewlines(e.(ts := ""));
    if |e.ts| < |f.ts| {
      var m := FrontsNest(e.ts, Line(LevelText(e.level), Line(CategoryText(e.category), Line(e.eventCode, After(e.message, e)))),
                          f.ts, Line(LevelText(f.level), Line(CategoryText(f.category), Line(f.eventCode, After(f.message, f)))));
      LineNewlines(e.ts, m);
    }
  }

  /** Equal time stamps leave the rest of the text, where one-line fields fix the content. */
  lemma SameStampSameContent(e: LogEvent, f: LogEvent)
    requires OneLineFields(e) && WellFormed(ContextOf(e)) && WellFormed(ContextOf(f))
    requires Canonical(e) == Canonical(f) && |e.ts| == |f.ts|
    ensures SameContent(e, f)
  {
    var x := Canonical(e);
    assert e.ts == x[..|e.ts|] && f.ts == x[..|f.ts|];
    var d, g := e.(ts := ""), f.(ts := "");
    assert Canonical(d) == x[|e.ts|..] && Canonical(g) == x[|f.ts|..] by {
      StampOff(e);
      StampOff(f);
    }
    OneLineCanonicalFixesContent(d, g);
  }

  lemma StampOff(e: LogEvent)
    ensures Canonical(e) == e.ts + Canonical(e.(ts := ""))
  {
    assert After(e.message, e) == After(e.message, e.(ts := ""));
    LineShift(e.ts, "", Line(LevelText(e.level), Line(CategoryText(e.category), Line(e.eventCode, After(e.message, e)))));
    assert e.ts + "" == e.ts;
  }

  /**
   Exactly which events share their canonical text with an event of other content: those with a
   line break in code, message, correlation id, service or host, or a header hidden in the time stamp.
   */
  lemma AmbiguousIff(e: LogEvent)
    requires WellFormed(ContextOf(e))
    ensures Ambiguous(e) <==> !OneLineFields(e) || HidesHeader(e.ts)
  {
    if !OneLineFields(e) {
      var f := Twin(e);
      assert WellFormed(ContextOf(f)) && Canonical(f) == Canonical(e) && !SameContent(e, f);
    } else if HidesHeader(e.ts) {
      var a, l, c :| BeginsWithHeader(e.ts, a, l, c);
      var f := HeaderTwin(e, a, l, c);
      assert WellFormed(ContextOf(f)) && Canonical(f) == Canonical(e) && !SameContent(e, f);
    } else {
      forall f | WellFormed(ContextOf(f)) && Canonical(f) == Canonical(e) ensures SameContent(e, f) {
        StampIsLongest(e, f);
        if |f.ts| < |e.ts| { ShorterStampHides(e, f); }
        SameStampSameContent(e, f);
      }
    }
  }

  /** An event of other content that verifies with the signature of `e`. */
  ghost predicate Forgeable(e: LogEvent, key: string) {
    exists f :: WellFormed(ContextOf(f)) && f.signature == e.signature && VerifySignature(f, key) && !SameContent(e, f)
  }

  /**
   Exactly which signed events can be replaced under their own signature: those with a line break
   in one of five fields or a header hidden in the time stamp.
   */
  lemma ForgeableIff(e: LogEvent, key: string)
    requires VerifySignature(e, key) && WellFormed(ContextOf(e))
    ensures Forgeable(e, key) <==> !OneLineFields(e) || HidesHeader(e.ts)
  {
    AmbiguousIff(e);
    if Forgeable(e, key) {
      var f :| WellFormed(ContextOf(f)) && f.signature == e.signature && VerifySignature(f, key) && !SameContent(e, f);
      assert Canonical(f) == Canonical(e);
    }
    if Ambiguous(e) {
      var f :| WellFormed(ContextOf(f)) && Canonical(f) == Canonical(e) && !SameContent(e, f);
      var g := f.(seqNo := e.seqNo, prevHash := e.prevHash, signature := e.signature);
      assert ContextOf(g) == ContextOf(f) && After(g.message, g) == After(f.message, f);
      assert WellFormed(ContextOf(g)) && g.signature == e.signature && VerifySignature(g, key) && !SameContent(e, g);
    }
  }

  lemma AfterShift(m: string, e: LogEvent)
    ensures After(m, e) == m + After("", e)
  {
    LineShift(m, "", ContextText(ContextOf(e)));
    var t1 := Line("", ContextText(ContextOf(e)));
    LineShift(m, t1, e.correlationId.GetOr(""));
    var t2 := Line(t1, e.correlationId.GetOr(""));
    LineShift(m, t2, e.service.GetOr(""));
    var t3 := Line(t2, e.service.GetOr(""));
    LineShift(m, t3, e.host.GetOr(""));
    LineShift(m, Line(t3, e.host.GetOr("")), "");
    assert m + "" == m;
  }

  lemma LineShift(m: string, t: string, x: string)
    ensures Line(m + t, x) == m + Line(t, x)
  {
  }
}
