/** The `KEY=value` file format: trimming, splitting into lines, reading and printing. */
module EnvFile {
  import opened Prelude

  type Env = map<string, string>

  /** White space as `String.prototype.trim` knows it. */
  predicate IsSpace(c: char) {
    var n := c as int;
    9 <= n <= 13 || n == 32 || n == 0xA0 || n == 0x1680 || 0x2000 <= n <= 0x200A
    || n == 0x2028 || n == 0x2029 || n == 0x202F || n == 0x205F || n == 0x3000 || n == 0xFEFF
  }

  function TrimStart(s: string): string { if s != "" && IsSpace(s[0]) then TrimStart(s[1..]) else s }

  function TrimEnd(s: string): string {
    if s != "" && IsSpace(s[|s| - 1]) then TrimEnd(s[..|s| - 1]) else s
  }

  function Trim(s: string): string { TrimEnd(TrimStart(s)) }

  /** `split("\n")`. */
  function Split(text: string): (lines: seq<string>)
    ensures |lines| > 0
  {
    if text == "" then [""]
    else
      var rest := Split(text[1..]);
      if text[0] == '\n' then [""] + rest else [[text[0]] + rest[0]] + rest[1..]
  }

  function IndexOf(s: string, c: char): int {
    if s == "" then -1 else if s[0] == c then 0
    else var i := IndexOf(s[1..], c); if i < 0 then -1 else i + 1
  }

  predicate Quoted(v: string) {
    |v| >= 2 && v[0] == v[|v| - 1] && (v[0] == '"' || v[0] == '\'')
  }

  function Unquote(v: string): string { if Quoted(v) then v[1..|v| - 1] else v }

  lemma {:induction false} IndexOfBound(s: string, c: char)
    ensures -1 <= IndexOf(s, c) < |s|
    ensures IndexOf(s, c) >= 0 ==> s[IndexOf(s, c)] == c
  {
    if s != "" { IndexOfBound(s[1..], c); }
  }

  datatype Entry = Entry(key: string, value: string)

  /** What a line defines, if anything. */
  function ReadLine(line: string): Option<Entry> {
    var trimmed := Trim(line);
    var index := IndexOf(trimmed, '=');
    IndexOfBound(trimmed, '=');
    if trimmed == "" || trimmed[0] == '#' || index <= 0 then None
    else Some(Entry(Trim(trimmed[..index]), Unquote(Trim(trimmed[index + 1..]))))
  }

  /** Later lines win. */
  function ReadLines(lines: seq<string>): Env {
    if lines == [] then map[]
    else
      var before := ReadLines(lines[..|lines| - 1]);
      match ReadLine(lines[|lines| - 1])
      case Some(e) => before[e.key := e.value]
      case None => before
  }

  function ReadEnv(text: string): Env { ReadLines(Split(text)) }

  method ReadEnvFile(text: string) returns (env: Env)
    ensures env == ReadEnv(text)
  {
    hide TrimStart, TrimEnd, Trim, IndexOf, Split;
    env := map[];
    var lines := Split(text);
    for i := 0 to |lines|
      invariant env == ReadLines(lines[..i])
    {
      TakeNext(lines, i + 1);
      DropLast(lines[..i], lines[i]);
      var trimmed := Trim(lines[i]);
      if |trimmed| == 0 || trimmed[0] == '#' { continue; }
      var index := IndexOf(trimmed, '=');
      IndexOfBound(trimmed, '=');
      if index <= 0 { continue; }
      var key := Trim(trimmed[..index]);
      var value := Trim(trimmed[index + 1..]);
      if |value| >= 2 && ((value[0] == '"' && value[|value| - 1] == '"') || (value[0] == '\'' && value[|value| - 1] == '\'')) {
        value := value[1..|value| - 1];
      }
      assert ReadLine(lines[i]) == Some(Entry(key, value));
      env := env[key := value];
    }
    assert lines[..|lines|] == lines;
  }

  /** Every line followed by a newline. */
  function PrintLines(lines: seq<string>): string {
    if lines == [] then "" else lines[0] + ['\n'] + PrintLines(lines[1..])
  }

  /** `lines.join("\n")`, for at least one line. */
  function Join(lines: seq<string>): string
    requires lines != []
  {
    if |lines| == 1 then lines[0] else lines[0] + ['\n'] + Join(lines[1..])
  }

  /** Joining and closing with a newline ends every line with one. */
  lemma {:induction false} JoinThenNewline(lines: seq<string>)
    requires lines != []
    ensures Join(lines) + ['\n'] == PrintLines(lines)
  {
    if |lines| == 1 {
      assert lines[0] + ['\n'] + "" == lines[0] + ['\n'];
    } else {
      JoinThenNewline(lines[1..]);
      Assoc(lines[0] + ['\n'], Join(lines[1..]), ['\n']);
    }
  }

  function PrintEntry(e: Entry): string { e.key + ['='] + e.value }

  function Lines(es: seq<Entry>): (lines: seq<string>)
    ensures |lines| == |es|
  {
    seq(|es|, i requires 0 <= i < |es| => PrintEntry(es[i]))
  }

  function PrintEntries(es: seq<Entry>): string
    requires es != []
  {
    Join(Lines(es)) + ['\n']
  }

  // ----------------------------------------------------------------- trimming

  predicate Trimmed(s: string) { s == "" || (!IsSpace(s[0]) && !IsSpace(s[|s| - 1])) }

  /** How many characters trimming cuts off the front. */
  lemma {:induction false} TrimStartPart(s: string) returns (k: nat)
    ensures k <= |s| && TrimStart(s) == s[k..]
    ensures TrimStart(s) != "" ==> !IsSpace(TrimStart(s)[0])
  {
    k := 0;
    if s != "" && IsSpace(s[0]) {
      var m := TrimStartPart(s[1..]);
      assert s[1..][m..] == s[m + 1..];
      k := m + 1;
    }
  }

  /** How many characters trimming leaves at the front. */
  lemma {:induction false} TrimEndPart(s: string) returns (k: nat)
    ensures k <= |s| && TrimEnd(s) == s[..k]
    ensures TrimEnd(s) != "" ==> !IsSpace(TrimEnd(s)[|TrimEnd(s)| - 1])
  {
    k := |s|;
    if s != "" && IsSpace(s[|s| - 1]) {
      k := TrimEndPart(s[..|s| - 1]);
      TakeTake(s, k, |s| - 1);
    }
  }

  /** The stretch of `s` that trimming keeps. */
  lemma TrimPart(s: string) returns (j: nat, k: nat)
    ensures j <= k <= |s| && Trim(s) == s[j..k]
  {
    j := TrimStartPart(s);
    var m := TrimEndPart(TrimStart(s));
    k := j + m;
  }

  lemma TrimIsTrimmed(s: string)
    ensures Trimmed(Trim(s))
  {
    var t := TrimStart(s);
    var j := TrimStartPart(s);
    var k := TrimEndPart(t);
    assert k > 0 ==> TrimEnd(t)[0] == t[0];
  }

  /** Trimming cuts, never adds; the result is trimmed; exactly a trimmed text is left alone. */
  lemma TrimFacts(s: string)
    ensures Trimmed(Trim(s)) && |Trim(s)| <= |s|
    ensures Trim(s) == s <==> Trimmed(s)
    ensures forall c | c in Trim(s) :: c in s
  {
    TrimIsTrimmed(s);
    var j, k := TrimPart(s);
  }

  // ------------------------------------------------------- reading back a line

  /** A key as the program writes it: no white space, no `=`, not starting a comment. */
  predicate PlainKey(k: string) {
    k != "" && k[0] != '#' && forall c | c in k :: c != '=' && c != '\n' && !IsSpace(c)
  }

  lemma {:induction false} TrimEndKeeps(a: string, s: string)
    requires a != "" && !IsSpace(a[|a| - 1])
    ensures TrimEnd(a + s) == a + TrimEnd(s)
    decreases |s|
  {
    if s == "" {
      assert a + s == a;
    } else if IsSpace(s[|s| - 1]) {
      assert (a + s)[..|a + s| - 1] == a + s[..|s| - 1];
      TrimEndKeeps(a, s[..|s| - 1]);
    }
  }

  lemma {:induction false} TrimEndThenStart(s: string)
    ensures Trim(TrimEnd(s)) == Trim(s)
    decreases |s|
  {
    if s != "" && IsSpace(s[|s| - 1]) {
      var front := s[..|s| - 1];
      TrimEndThenStart(front);
      StartOfExtended(front, s[|s| - 1]);
      assert s == front + [s[|s| - 1]];
    }
  }

  lemma {:induction false} StartOfExtended(s: string, c: char)
    requires IsSpace(c)
    ensures Trim(s + [c]) == Trim(s)
    decreases |s|
  {
    if s == "" {
      assert s + [c] == [c];
      assert TrimStart([c]) == TrimStart([c][1..]) == "";
    } else if IsSpace(s[0]) {
      assert (s + [c])[1..] == s[1..] + [c];
      StartOfExtended(s[1..], c);
    } else {
      assert TrimStart(s + [c]) == s + [c];
      assert (s + [c])[..|s|] == s;
    }
  }

  lemma {:induction false} IndexOfKey(k: string, rest: string)
    requires '=' !in k
    ensures IndexOf(k + ['='] + rest, '=') == |k|
  {
    if k != "" {
      assert (k + ['='] + rest)[1..] == k[1..] + ['='] + rest;
      IndexOfKey(k[1..], rest);
    }
  }

  /** A printed entry is read as its key and its value, trimmed and unquoted. */
  lemma ReadPrinted(k: string, v: string)
    requires PlainKey(k)
    ensures ReadLine(PrintEntry(Entry(k, v))) == Some(Entry(k, Unquote(Trim(v))))
  {
    var line := k + ['='] + v;
    assert TrimStart(line) == line;
    TrimEndKeeps(k + ['='], v);
    var trimmed := k + ['='] + TrimEnd(v);
    IndexOfKey(k, TrimEnd(v));
    assert trimmed[..|k|] == k && trimmed[|k| + 1..] == TrimEnd(v);
    TrimFacts(k);
    TrimEndThenStart(v);
    assert line[0] == k[0] && trimmed[0] == k[0];
  }

  lemma {:induction false} SplitLine(line: string, rest: string)
    requires '\n' !in line
    ensures Split(line + ['\n'] + rest) == [line] + Split(rest)
  {
    var text := line + ['\n'] + rest;
    if line == "" {
      assert text[1..] == rest;
    } else {
      assert text[1..] == line[1..] + ['\n'] + rest;
      SplitLine(line[1..], rest);
      assert [line[0]] + line[1..] == line;
    }
  }

  lemma {:induction false} SplitPrinted(lines: seq<string>)
    requires forall i | 0 <= i < |lines| :: '\n' !in lines[i]
    ensures Split(PrintLines(lines)) == lines + [""]
  {
    if lines != [] {
      SplitLine(lines[0], PrintLines(lines[1..]));
      SplitPrinted(lines[1..]);
      assert [lines[0]] + (lines[1..] + [""]) == lines + [""];
    }
  }

  /** The environment that entries define, later ones winning. */
  function Defined(es: seq<Entry>): Env {
    if es == [] then map[]
    else Defined(es[..|es| - 1])[es[|es| - 1].key := Unquote(Trim(es[|es| - 1].value))]
  }

  ghost predicate Distinct(es: seq<Entry>) {
    forall i, j | 0 <= i < j < |es| :: es[i].key != es[j].key
  }

  lemma {:induction false} DefinedHas(es: seq<Entry>, e: Entry)
    requires Distinct(es) && e in es
    ensures e.key in Defined(es) && Defined(es)[e.key] == Unquote(Trim(e.value))
  {
    var n := |es| - 1;
    if e != es[n] {
      assert e in es[..n];
      DefinedHas(es[..n], e);
      var i :| 0 <= i < n && es[i] == e;
    }
  }

  lemma {:induction false} DefinedLacks(es: seq<Entry>, key: string)
    requires forall e | e in es :: e.key != key
    ensures key !in Defined(es)
  {
    if es != [] {
      var n := |es| - 1;
      assert forall e | e in es[..n] :: e in es;
      assert es[n] in es;
      DefinedLacks(es[..n], key);
    }
  }

  predicate Printable(e: Entry) { PlainKey(e.key) && '\n' !in e.value }

  lemma {:induction false} ReadLinesOfEntries(es: seq<Entry>)
    requires forall e | e in es :: Printable(e)
    ensures ReadLines(Lines(es)) == Defined(es)
  {
    var lines := Lines(es);
    if es != [] {
      var front := es[..|es| - 1];
      assert forall e | e in front :: e in es;
      ReadLinesOfEntries(front);
      assert lines[..|lines| - 1] == Lines(front);
      assert es[|es| - 1] in es;
      ReadPrinted(es[|es| - 1].key, es[|es| - 1].value);
    }
  }

  /** Reading a printed file gives back its entries, trimmed and unquoted. */
  lemma ReadPrintedFile(es: seq<Entry>)
    requires es != [] && forall e | e in es :: Printable(e)
    ensures ReadEnv(PrintEntries(es)) == Defined(es)
  {
    var lines := Lines(es);
    JoinThenNewline(lines);
    forall i | 0 <= i < |lines| ensures '\n' !in lines[i] { assert es[i] in es; }
    SplitPrinted(lines);
    ReadLinesOfEntries(es);
    DropLast(lines, "");
    assert ReadLine("") == None;
  }

  // ------------------------------------------------------------ what can be read

  lemma {:induction false} SplitHasNoNewline(text: string)
    ensures forall i | 0 <= i < |Split(text)| :: '\n' !in Split(text)[i]
  {
    if text != "" { SplitHasNoNewline(text[1..]); }
  }

  lemma ReadLineHasNoNewline(line: string)
    requires '\n' !in line
    ensures ReadLine(line).Some? ==> '\n' !in ReadLine(line).value.value
  {
    TrimFacts(line);
    var trimmed := Trim(line);
    var index := IndexOf(trimmed, '=');
    IndexOfBound(trimmed, '=');
    if index > 0 {
      var raw := trimmed[index + 1..];
      assert forall c | c in raw :: c in trimmed;
      TrimFacts(raw);
      assert forall c | c in Unquote(Trim(raw)) :: c in Trim(raw);
    }
  }

  lemma {:induction false} ReadLinesHaveNoNewline(lines: seq<string>)
    requires forall i | 0 <= i < |lines| :: '\n' !in lines[i]
    ensures forall k | k in ReadLines(lines) :: '\n' !in ReadLines(lines)[k]
  {
    if lines != [] {
      ReadLinesHaveNoNewline(lines[..|lines| - 1]);
      ReadLineHasNoNewline(lines[|lines| - 1]);
    }
  }

  /** No value read from a file spans lines. */
  lemma ReadEnvHasNoNewline(text: string)
    ensures forall k | k in ReadEnv(text) :: '\n' !in ReadEnv(text)[k]
  {
    SplitHasNoNewline(text);
    ReadLinesHaveNoNewline(Split(text));
  }

  // ------------------------------------------------- values that span lines

  lemma {:induction false} SplitJoin(a: string, b: string)
    ensures Split(a + ['\n'] + b) == Split(a) + Split(b)
  {
    var text := a + ['\n'] + b;
    if a == "" {
      assert text[1..] == b;
    } else {
      assert text[1..] == a[1..] + ['\n'] + b;
      SplitJoin(a[1..], b);
    }
  }

  lemma {:induction false} ReadLinesJoin(xs: seq<string>, ys: seq<string>)
    ensures ReadLines(xs + ys) == ReadLines(xs) + ReadLines(ys)
  {
    if ys == [] {
      assert xs + ys == xs;
    } else {
      AppendedFront(xs, ys);
      ReadLinesJoin(xs, ys[..|ys| - 1]);
    }
  }

  lemma ReadEnvJoin(a: string, b: string)
    ensures ReadEnv(a + ['\n'] + b) == ReadEnv(a) + ReadEnv(b)
  {
    SplitJoin(a, b);
    ReadLinesJoin(Split(a), Split(b));
  }

  /** What the entries of a printed file define, each by its own text, later ones winning. */
  function Overlaid(es: seq<Entry>): Env {
    if es == [] then map[] else ReadEnv(PrintEntry(es[0])) + Overlaid(es[1..])
  }

  /** Any printed file, values of several lines included, is read entry by entry. */
  lemma {:induction false} ReadAnyLines(es: seq<Entry>)
    ensures ReadEnv(PrintLines(Lines(es))) == Overlaid(es)
  {
    if es == [] {
      assert ReadLine("") == None;
    } else {
      var line, rest := PrintEntry(es[0]), PrintLines(Lines(es[1..]));
      assert Lines(es)[1..] == Lines(es[1..]);
      ReadEnvJoin(line, rest);
      ReadAnyLines(es[1..]);
    }
  }

  lemma ReadAnyFile(es: seq<Entry>)
    requires es != []
    ensures ReadEnv(PrintEntries(es)) == Overlaid(es)
  {
    JoinThenNewline(Lines(es));
    ReadAnyLines(es);
  }

  lemma {:induction false} OverlaidJoin(es: seq<Entry>, fs: seq<Entry>)
    ensures Overlaid(es + fs) == Overlaid(es) + Overlaid(fs)
  {
    hide ReadEnv, PrintEntry;
    if es == [] {
      assert es + fs == fs;
    } else {
      assert (es + fs)[1..] == es[1..] + fs && (es + fs)[0] == es[0];
      OverlaidJoin(es[1..], fs);
      OverlayAssoc(ReadEnv(PrintEntry(es[0])), Overlaid(es[1..]), Overlaid(fs));
    }
  }

  lemma OverlayAssoc(a: Env, b: Env, c: Env)
    ensures (a + b) + c == a + (b + c)
  {
  }

  lemma {:induction false} SplitFirst(a: string, b: string)
    requires '\n' !in a
    ensures Split(a + b) == [a + Split(b)[0]] + Split(b)[1..]
  {
    if a == "" {
      assert a + b == b && a + Split(b)[0] == Split(b)[0];
    } else {
      assert (a + b)[1..] == a[1..] + b;
      SplitFirst(a[1..], b);
      assert [a[0]] + (a[1..] + Split(b)[0]) == a + Split(b)[0];
    }
  }

  /** Whatever a printed value contains, its entry defines its key. */
  lemma EntryDefinesKey(k: string, v: string)
    requires PlainKey(k)
    ensures k in ReadEnv(PrintEntry(Entry(k, v)))
  {
    var first, rest := k + ['='] + Split(v)[0], Split(v)[1..];
    SplitFirst(k + ['='], v);
    ReadPrinted(k, Split(v)[0]);
    ReadLinesJoin([first], rest);
    assert ReadLines([first]) == map[][k := Unquote(Trim(Split(v)[0]))] by { assert [first][..0] == []; }
  }

  /** A one-line value defines its key and nothing else. */
  lemma OneLineEntry(k: string, v: string)
    requires PlainKey(k) && '\n' !in v
    ensures ReadEnv(PrintEntry(Entry(k, v))) == map[k := Unquote(Trim(v))]
  {
    SplitFirst(k + ['='] + v, "");
    var line := PrintEntry(Entry(k, v));
    assert line + "" == line && Split(line) == [line];
    ReadPrinted(k, v);
    assert ReadLines([line]) == map[][k := Unquote(Trim(v))] by { assert [line][..0] == []; }
  }

  // ------------------------------------------------------------ what defines what

  /** A line defines something exactly when it is no comment and has a key before its first equals sign. */
  lemma DefinesIff(line: string)
    ensures ReadLine(line).Some? <==> Trim(line) != "" && Trim(line)[0] !in "#=" && '=' in Trim(line)
  {
    hide Trim;
    var t := Trim(line);
    IndexOfBound(t, '=');
    HasIndex(t, '=');
    if t != "" { assert t[0] in "#=" <==> t[0] == '#' || t[0] == '='; }
  }

  lemma {:induction false} HasIndex(s: string, c: char)
    ensures IndexOf(s, c) >= 0 <==> c in s
    ensures s != "" ==> (IndexOf(s, c) == 0 <==> s[0] == c)
  {
    if s != "" {
      HasIndex(s[1..], c);
      IndexOfBound(s[1..], c);
      assert c in s <==> s[0] == c || c in s[1..];
    }
  }

  /** One pair of matching quotes is taken off, of either kind, and no more. */
  lemma QuotesComeOff(v: string)
    ensures Unquote(['"'] + v + ['"']) == v && Unquote(['\''] + v + ['\'']) == v
    ensures (v == "" || v[0] !in "\"'") ==> Unquote(v) == v
  {
    var d, s := ['"'] + v + ['"'], ['\''] + v + ['\''];
    assert d[1..|d| - 1] == v && s[1..|s| - 1] == v;
    if v != "" { assert v[0] in "\"'" <==> v[0] == '"' || v[0] == '\''; }
  }

  /** White space among the ASCII characters. */
  lemma AsciiSpace(c: char)
    requires (c as int) < 128
    ensures IsSpace(c) <==> c in " \t\n\r" || (c as int) in {11, 12}
  {
    var w := " \t\n\r";
    assert c in w <==> c == ' ' || c == '\t' || c == '\n' || c == '\r';
  }

  lemma {:induction false} StartOfBlank(s: string)
    requires forall i | 0 <= i < |s| :: IsSpace(s[i])
    ensures TrimStart(s) == ""
  {
    if s != "" { StartOfBlank(s[1..]); }
  }

  lemma {:induction false} BlankStart(s: string)
    requires exists i :: 0 <= i < |s| && !IsSpace(s[i])
    ensures TrimStart(s) != ""
  {
    if IsSpace(s[0]) {
      var i :| 0 <= i < |s| && !IsSpace(s[i]);
      assert s[1..][i - 1] == s[i];
      BlankStart(s[1..]);
    }
  }

  /** A text is blank exactly when it is white space throughout; an ASCII text, when it is tabs, line breaks, form feeds and spaces. */
  lemma BlankIff(s: string)
    ensures Trim(s) == "" <==> forall i | 0 <= i < |s| :: IsSpace(s[i])
    ensures (forall c | c in s :: (c as int) < 128) ==>
              (Trim(s) == "" <==> forall c | c in s :: c in " \t\n\r" || (c as int) in {11, 12})
  {
    var t := TrimStart(s);
    var j := TrimStartPart(s);
    var k := TrimEndPart(t);
    if forall i | 0 <= i < |s| :: IsSpace(s[i]) { StartOfBlank(s); } else { BlankStart(s); }
    if t != "" {
      assert !IsSpace(t[0]);
      EndOfSolid(t);
    }
    if forall c | c in s :: (c as int) < 128 {
      forall c | c in s ensures IsSpace(c) <==> c in " \t\n\r" || (c as int) in {11, 12} { AsciiSpace(c); }
    }
  }

  lemma {:induction false} EndOfSolid(t: string)
    requires t != "" && !IsSpace(t[0])
    ensures TrimEnd(t) != ""
  {
    if IsSpace(t[|t| - 1]) { EndOfSolid(t[..|t| - 1]); }
  }
}
