/**
 JSON values of an event context: the key-sorted form, its printed text, and the
 fact both exist for: two contexts print alike exactly when they differ at most
 in the order of their keys.
 */
module Json {
  import opened Text

  /** An object lists its fields in insertion order; keys are distinct (`WellFormed`). */
  datatype Json =
    | Null
    | Bool(b: bool)
    | Num(n: int)
    | Str(s: string)
    | Arr(items: seq<Json>)
    | Obj(fields: seq<Field>)

  datatype Field = Field(key: string, value: Json)

  predicate UniqueKeys(fs: seq<Field>) {
    forall i, j | 0 <= i < j < |fs| :: fs[i].key != fs[j].key
  }

  predicate WellFormed(v: Json) {
    match v
    case Arr(items) => forall i | 0 <= i < |items| :: WellFormed(items[i])
    case Obj(fields) => UniqueKeys(fields) && forall i | 0 <= i < |fields| :: WellFormed(fields[i].value)
    case _ => true
  }

  // ---------------------------------------------------------------- key order

  /** `Array.prototype.sort` order on keys: lexicographic by character code. */
  predicate KeyLess(a: string, b: string) {
    b != "" && (a == "" || a[0] < b[0] || (a[0] == b[0] && KeyLess(a[1..], b[1..])))
  }

  lemma {:induction false} KeyLessTransitive(a: string, b: string, c: string)
    requires KeyLess(a, b) && KeyLess(b, c)
    ensures KeyLess(a, c)
  {
    if a != "" && a[0] == b[0] == c[0] {
      KeyLessTransitive(a[1..], b[1..], c[1..]);
    }
  }

  lemma {:induction false} KeyLessTotal(a: string, b: string)
    ensures a == b || KeyLess(a, b) || KeyLess(b, a)
  {
    if a != "" && b != "" && a[0] == b[0] {
      KeyLessTotal(a[1..], b[1..]);
      assert a == [a[0]] + a[1..] && b == [b[0]] + b[1..];
    }
  }

  lemma {:induction false} KeyLessIrreflexive(a: string)
    ensures !KeyLess(a, a)
  {
    if a != "" { KeyLessIrreflexive(a[1..]); }
  }

  ghost predicate Ascending(fs: seq<Field>) {
    forall i, j | 0 <= i < j < |fs| :: KeyLess(fs[i].key, fs[j].key)
  }

  function Insert(f: Field, fs: seq<Field>): seq<Field> {
    if fs == [] then [f]
    else if KeyLess(fs[0].key, f.key) then [fs[0]] + Insert(f, fs[1..])
    else [f] + fs
  }

  function SortFields(fs: seq<Field>): (r: seq<Field>)
    ensures |r| == |fs|
  {
    if fs == [] then [] else
      var r := SortFields(fs[1..]);
      InsertLength(fs[0], r);
      Insert(fs[0], r)
  }

  lemma {:induction false} InsertLength(f: Field, fs: seq<Field>)
    ensures |Insert(f, fs)| == |fs| + 1
  {
    if fs != [] { InsertLength(f, fs[1..]); }
  }

  lemma {:induction false} InsertMembers(f: Field, fs: seq<Field>, x: Field)
    ensures x in Insert(f, fs) <==> x == f || x in fs
  {
    if fs != [] {
      InsertMembers(f, fs[1..], x);
      assert fs == [fs[0]] + fs[1..];
    }
  }

  lemma {:induction false} SortMembers(fs: seq<Field>, x: Field)
    ensures x in SortFields(fs) <==> x in fs
  {
    if fs != [] {
      SortMembers(fs[1..], x);
      InsertMembers(fs[0], SortFields(fs[1..]), x);
      assert fs == [fs[0]] + fs[1..];
    }
  }

  lemma {:induction false} InsertAscending(f: Field, fs: seq<Field>)
    requires Ascending(fs) && forall i | 0 <= i < |fs| :: fs[i].key != f.key
    ensures Ascending(Insert(f, fs))
  {
    var r := Insert(f, fs);
    if fs == [] {
    } else if KeyLess(fs[0].key, f.key) {
      InsertAscending(f, fs[1..]);
      forall j | 0 < j < |r| ensures KeyLess(r[0].key, r[j].key) {
        var x := r[j];
        assert x == Insert(f, fs[1..])[j - 1];
        InsertMembers(f, fs[1..], x);
      }
      forall i, j | 0 < i < j < |r| ensures KeyLess(r[i].key, r[j].key) {
        assert r[i] == Insert(f, fs[1..])[i - 1] && r[j] == Insert(f, fs[1..])[j - 1];
      }
    } else {
      KeyLessTotal(f.key, fs[0].key);
      forall j | 0 < j < |r| ensures KeyLess(f.key, r[j].key) {
        if j > 1 { KeyLessTransitive(f.key, fs[0].key, fs[j - 1].key); }
      }
    }
  }

  lemma {:induction false} SortAscending(fs: seq<Field>)
    requires UniqueKeys(fs)
    ensures Ascending(SortFields(fs))
  {
    if fs != [] {
      var r := SortFields(fs[1..]);
      SortAscending(fs[1..]);
      forall i | 0 <= i < |r| ensures r[i].key != fs[0].key {
        SortMembers(fs[1..], r[i]);
      }
      InsertAscending(fs[0], r);
    }
  }

  /** An ascending listing is determined by its members. */
  lemma {:induction false} AscendingUnique(a: seq<Field>, b: seq<Field>)
    requires Ascending(a) && Ascending(b)
    requires forall x :: x in a <==> x in b
    ensures a == b
  {
    assert a != [] ==> a[0] in b;
    assert b != [] ==> b[0] in a;
    if a != [] && b != [] {
      HeadsAgree(a, b);
      forall x ensures x in a[1..] <==> x in b[1..] {
        if x in a[1..] { TailMember(a, b, x); }
        if x in b[1..] { TailMember(b, a, x); }
      }
      AscendingUnique(a[1..], b[1..]);
      assert a == [a[0]] + a[1..] && b == [b[0]] + b[1..];
    }
  }

  lemma HeadsAgree(a: seq<Field>, b: seq<Field>)
    requires Ascending(a) && Ascending(b) && a != [] && b != []
    requires forall x :: x in a <==> x in b
    ensures a[0] == b[0]
  {
    assert a[0] in b && b[0] in a;
    var i :| 0 <= i < |b| && b[i] == a[0];
    var j :| 0 <= j < |a| && a[j] == b[0];
    if i > 0 && j > 0 {
      KeyLessTransitive(a[0].key, b[0].key, a[0].key);
      KeyLessIrreflexive(a[0].key);
    }
  }

  lemma TailMember(a: seq<Field>, b: seq<Field>, x: Field)
    requires Ascending(a) && b != [] && a != [] && a[0] == b[0]
    requires x in a[1..] && forall y :: y in a ==> y in b
    ensures x in b[1..]
  {
    var i :| 0 <= i < |a[1..]| && a[1..][i] == x;
    assert a[i + 1] == x && x in a;
    KeyLessIrreflexive(x.key);
    assert x != b[0];
    assert b == [b[0]] + b[1..];
  }

  // ------------------------------------------------------- the key-sorted form

  /** `sortKeys`: every object's keys in ascending order, at every depth. */
  function Sorted(v: Json): Json {
    match v
    case Arr(items) => Arr(seq(|items|, i requires 0 <= i < |items| => Sorted(items[i])))
    case Obj(fields) => Obj(SortFields(SortedValues(v)))
    case _ => v
  }

  function SortedValues(v: Json): (r: seq<Field>)
    requires v.Obj?
    ensures |r| == |v.fields|
    ensures forall i | 0 <= i < |r| :: r[i] == Field(v.fields[i].key, Sorted(v.fields[i].value))
    decreases v, 0
  {
    seq(|v.fields|, i requires 0 <= i < |v.fields| => Field(v.fields[i].key, Sorted(v.fields[i].value)))
  }

  /** `sortKeys` as the source runs it: order the keys, then fill the result key by key. */
  method SortKeys(v: Json) returns (r: Json)
    ensures r == Sorted(v)
    decreases v
  {
    match v
    case Arr(items) =>
      var out: seq<Json> := [];
      for i := 0 to |items|
        invariant |out| == i && forall k | 0 <= k < i :: out[k] == Sorted(items[k])
      {
        var item := SortKeys(items[i]);
        out := out + [item];
      }
      r := Arr(out);
    case Obj(fields) =>
      var ordered := SortFields(fields);
      var out: seq<Field> := [];
      for i := 0 to |ordered|
        invariant |out| == i && out == SortValues(ordered[..i])
      {
        SortMembers(fields, ordered[i]);
        var value := SortKeys(ordered[i].value);
        assert ordered[..i + 1] == ordered[..i] + [ordered[i]];
        out := out + [Field(ordered[i].key, value)];
      }
      assert ordered[..|ordered|] == ordered;
      assert SortedValues(v) == SortValues(fields);
      SortingIgnoresValues(fields);
      r := Obj(out);
    case _ =>
      r := v;
  }

  function SortValues(fs: seq<Field>): (r: seq<Field>)
    ensures |r| == |fs|
  {
    seq(|fs|, i requires 0 <= i < |fs| => Field(fs[i].key, Sorted(fs[i].value)))
  }

  lemma {:induction false} InsertIgnoresValues(f: Field, fs: seq<Field>)
    ensures Insert(Field(f.key, Sorted(f.value)), SortValues(fs)) == SortValues(Insert(f, fs))
  {
    if fs != [] && KeyLess(fs[0].key, f.key) {
      InsertIgnoresValues(f, fs[1..]);
      assert SortValues(fs)[1..] == SortValues(fs[1..]);
    }
  }

  /** Keys are compared, values are not: sorting commutes with sorting inside the values. */
  lemma {:induction false} SortingIgnoresValues(fs: seq<Field>)
    ensures SortFields(SortValues(fs)) == SortValues(SortFields(fs))
  {
    if fs != [] {
      SortingIgnoresValues(fs[1..]);
      assert SortValues(fs)[1..] == SortValues(fs[1..]);
      InsertIgnoresValues(fs[0], SortFields(fs[1..]));
    }
  }

  ghost function Keys(fs: seq<Field>): set<string> { set f | f in fs :: f.key }

  ghost function Members(fs: seq<Field>): set<Field> { set f | f in fs }

  /** Equal up to the order of object keys, at every depth. */
  ghost predicate Similar(v: Json, w: Json) {
    match (v, w)
    case (Arr(a), Arr(b)) =>
      |a| == |b| && forall i | 0 <= i < |a| :: Similar(a[i], b[i])
    case (Obj(a), Obj(b)) =>
      Keys(a) == Keys(b) && forall i, j | 0 <= i < |a| && 0 <= j < |b| && a[i].key == b[j].key :: Similar(a[i].value, b[j].value)
    case _ => v == w
  }

  /** The key-sorted form identifies exactly the contexts that differ in key order only. */
  lemma {:induction false} SortedIffSimilar(v: Json, w: Json)
    requires WellFormed(v) && WellFormed(w)
    ensures Sorted(v) == Sorted(w) <==> Similar(v, w)
    decreases v
  {
    match (v, w)
    case (Arr(a), Arr(b)) =>
      if |a| == |b| {
        forall i | 0 <= i < |a| ensures Sorted(a[i]) == Sorted(b[i]) <==> Similar(a[i], b[i]) {
          SortedIffSimilar(a[i], b[i]);
        }
        if Sorted(v) == Sorted(w) {
          forall i | 0 <= i < |a| ensures Similar(a[i], b[i]) {
            assert Sorted(v).items[i] == Sorted(w).items[i];
          }
        }
      } else {
        assert |Sorted(v).items| == |a| && |Sorted(w).items| == |b|;
      }
    case (Obj(a), Obj(b)) =>
      forall i, j | 0 <= i < |a| && 0 <= j < |b|
        ensures Sorted(a[i].value) == Sorted(b[j].value) <==> Similar(a[i].value, b[j].value)
      {
        SortedIffSimilar(a[i].value, b[j].value);
      }
      SortedObjectsAgree(v, w);
    case _ =>
  }

  /** Sorting two listings gives the same result exactly when they have the same members. */
  lemma SortIffSameMembers(a: seq<Field>, b: seq<Field>)
    requires UniqueKeys(a) && UniqueKeys(b)
    ensures SortFields(a) == SortFields(b) <==> Members(a) == Members(b)
  {
    SortAscending(a);
    SortAscending(b);
    forall x ensures (x in SortFields(a) <==> x in a) && (x in SortFields(b) <==> x in b) {
      SortMembers(a, x);
      SortMembers(b, x);
    }
    if SortFields(a) == SortFields(b) {
      forall x ensures x in Members(a) <==> x in Members(b) { assert x in a <==> x in SortFields(a); }
    }
    if Members(a) == Members(b) {
      forall x ensures x in a <==> x in b { assert x in Members(a) <==> x in Members(b); }
      AscendingUnique(SortFields(a), SortFields(b));
    }
  }

  /** Listings with distinct keys have the same members exactly when they agree key by key. */
  lemma MembersAgreeByKey(a: seq<Field>, b: seq<Field>)
    requires UniqueKeys(a) && UniqueKeys(b)
    ensures Members(a) == Members(b) <==>
            Keys(a) == Keys(b) && forall i, j | 0 <= i < |a| && 0 <= j < |b| && a[i].key == b[j].key :: a[i] == b[j]
  {
    if Members(a) == Members(b) {
      forall k ensures k in Keys(a) <==> k in Keys(b) {
        if k in Keys(a) { var f :| f in a && f.key == k; assert f in Members(b); }
        if k in Keys(b) { var f :| f in b && f.key == k; assert f in Members(a); }
      }
      forall i, j | 0 <= i < |a| && 0 <= j < |b| && a[i].key == b[j].key ensures a[i] == b[j] {
        assert a[i] in Members(b);
        var k :| 0 <= k < |b| && b[k] == a[i];
      }
    }
    if Keys(a) == Keys(b) && forall i, j | 0 <= i < |a| && 0 <= j < |b| && a[i].key == b[j].key :: a[i] == b[j] {
      forall x ensures x in Members(a) <==> x in Members(b) {
        if x in Members(a) { assert x.key in Keys(b); var f :| f in b && f.key == x.key; }
        if x in Members(b) { assert x.key in Keys(a); var f :| f in a && f.key == x.key; }
      }
    }
  }

  lemma SortedObjectsAgree(v: Json, w: Json)
    requires v.Obj? && w.Obj? && WellFormed(v) && WellFormed(w)
    requires forall i, j | 0 <= i < |v.fields| && 0 <= j < |w.fields| ::
               Sorted(v.fields[i].value) == Sorted(w.fields[j].value) <==> Similar(v.fields[i].value, w.fields[j].value)
    ensures Sorted(v) == Sorted(w) <==> Similar(v, w)
  {
    var a, b := SortedValues(v), SortedValues(w);
    SortIffSameMembers(a, b);
    MembersAgreeByKey(a, b);
    SameKeys(v.fields, a);
    SameKeys(w.fields, b);
    forall i, j | 0 <= i < |a| && 0 <= j < |b| && a[i].key == b[j].key
      ensures a[i] == b[j] <==> Similar(v.fields[i].value, w.fields[j].value)
    {
    }
  }

  lemma SameKeys(a: seq<Field>, b: seq<Field>)
    requires |a| == |b| && forall i | 0 <= i < |a| :: a[i].key == b[i].key
    ensures Keys(a) == Keys(b)
  {
    forall k ensures k in Keys(a) <==> k in Keys(b) {
      if k in Keys(a) { var i :| 0 <= i < |a| && a[i].key == k; assert b[i] in b; }
      if k in Keys(b) { var i :| 0 <= i < |b| && b[i].key == k; assert a[i] in a; }
    }
  }

  // --------------------------------------------------------------- printed text

  function HexDigit(n: nat): char
    requires n < 16
  {
    "0123456789abcdef"[n]
  }

  /** `JSON.stringify` escaping of one character. */
  function EscapeChar(c: char): string {
    if c == '"' then "\\\""
    else if c == '\\' then "\\\\"
    else if c == '\n' then "\\n"
    else if c == '\r' then "\\r"
    else if c == '\t' then "\\t"
    else if c as int == 8 then "\\b"
    else if c as int == 12 then "\\f"
    else if c as int < 32 then "\\u00" + [HexDigit(c as int / 16), HexDigit(c as int % 16)]
    else [c]
  }

  // The printers below take the text that follows the printed value, so that
  // reading a value back from the front of a text needs no re-bracketing.

  /** The rest of a quoted string, then `rest`. */
  function EscapeThen(s: string, rest: string): string {
    if s == "" then ['"'] + rest else EscapeChar(s[0]) + EscapeThen(s[1..], rest)
  }

  function QuoteThen(s: string, rest: string): string { ['"'] + EscapeThen(s, rest) }

  function NumberThen(n: int, rest: string): string {
    if n < 0 then ['-'] + (Decimal(-n) + rest) else Decimal(n) + rest
  }

  /** `JSON.stringify(v)`, then `rest`. */
  function PrintThen(v: Json, rest: string): string
    decreases v, 0
  {
    match v
    case Null => "null" + rest
    case Bool(b) => (if b then "true" else "false") + rest
    case Num(n) => NumberThen(n, rest)
    case Str(s) => QuoteThen(s, rest)
    case Arr(items) => ['['] + (if items == [] then [']'] + rest else PrintThen(items[0], ItemsThen(items[1..], rest)))
    case Obj(fields) => ['{'] + (if fields == [] then ['}'] + rest else FieldThen(fields[0], FieldsThen(fields[1..], rest)))
  }

  function ItemsThen(items: seq<Json>, rest: string): string {
    if items == [] then [']'] + rest else [','] + PrintThen(items[0], ItemsThen(items[1..], rest))
  }

  function FieldThen(f: Field, rest: string): string {
    QuoteThen(f.key, [':'] + PrintThen(f.value, rest))
  }

  function FieldsThen(fields: seq<Field>, rest: string): string {
    if fields == [] then ['}'] + rest else [','] + FieldThen(fields[0], FieldsThen(fields[1..], rest))
  }

  function Print(v: Json): string { PrintThen(v, "") }

  lemma DropHead(c: char, x: string, d: char, y: string)
    requires [c] + x == [d] + y
    ensures c == d && x == y
  {
    assert x == ([c] + x)[1..] && y == ([d] + y)[1..];
    assert c == ([c] + x)[0] && d == ([d] + y)[0];
  }

  lemma HexDigitsDiffer(m: nat, n: nat)
    requires m < 16 && n < 16 && m != n
    ensures HexDigit(m) != HexDigit(n)
  {
  }

  /** Two different characters are escaped differently within the shorter of the two texts. */
  lemma EscapesDiffer(c: char, d: char) returns (k: nat)
    requires c != d
    ensures k < |EscapeChar(c)| && k < |EscapeChar(d)| && EscapeChar(c)[k] != EscapeChar(d)[k]
  {
    hide HexDigit;
    var x, y := EscapeChar(c), EscapeChar(d);
    if c as int < 32 && d as int < 32 {
      if c as int / 16 != d as int / 16 { HexDigitsDiffer(c as int / 16, d as int / 16); }
      if c as int % 16 != d as int % 16 { HexDigitsDiffer(c as int % 16, d as int % 16); }
    }
    k := if x[0] != y[0] then 0 else if x[1] != y[1] then 1 else if x[4] != y[4] then 4 else 5;
  }

  lemma EscapesApart(c: char, d: char, s: string, t: string)
    requires c != d
    ensures EscapeChar(c) + s != EscapeChar(d) + t
  {
    var k := EscapesDiffer(c, d);
    assert (EscapeChar(c) + s)[k] == EscapeChar(c)[k];
    assert (EscapeChar(d) + t)[k] == EscapeChar(d)[k];
  }

  lemma EscapeCharPrefixFree(c: char, d: char, s: string, t: string)
    requires EscapeChar(c) + s == EscapeChar(d) + t
    ensures c == d && s == t
  {
    var x, y := EscapeChar(c), EscapeChar(d);
    assert c == d by { if c != d { EscapesApart(c, d, s, t); } }
    assert s == (x + s)[|x|..] && t == (y + t)[|y|..];
  }

  /** No escaped character starts with the closing quote. */
  lemma EscapeNeverCloses(s: string, rest: string)
    ensures EscapeThen(s, rest) != "" && (EscapeThen(s, rest)[0] == '"' <==> s == "")
  {
    if s != "" { assert EscapeThen(s, rest)[0] == EscapeChar(s[0])[0]; }
  }

  lemma {:induction false} EscapePrefixFree(a: string, b: string, s: string, t: string)
    requires EscapeThen(a, s) == EscapeThen(b, t)
    ensures a == b && s == t
  {
    EscapeNeverCloses(a, s);
    EscapeNeverCloses(b, t);
    if a == "" {
      DropHead('"', s, '"', t);
    } else {
      EscapeCharPrefixFree(a[0], b[0], EscapeThen(a[1..], s), EscapeThen(b[1..], t));
      EscapePrefixFree(a[1..], b[1..], s, t);
      assert a == [a[0]] + a[1..] && b == [b[0]] + b[1..];
    }
  }

  lemma QuotePrefixFree(a: string, b: string, s: string, t: string)
    requires QuoteThen(a, s) == QuoteThen(b, t)
    ensures a == b && s == t
  {
    DropHead('"', EscapeThen(a, s), '"', EscapeThen(b, t));
    EscapePrefixFree(a, b, s, t);
  }

  lemma DecimalPrefixFree(n: nat, m: nat, s: string, t: string)
    requires Decimal(n) + s == Decimal(m) + t
    requires !DigitFollows(s) && !DigitFollows(t)
    ensures n == m && s == t
  {
    CutDigits(Decimal(n), s, Decimal(m), t);
    DecimalRoundTrip(n);
    DecimalRoundTrip(m);
  }

  lemma NumberPrefixFree(n: int, m: int, s: string, t: string)
    requires NumberThen(n, s) == NumberThen(m, t)
    requires !DigitFollows(s) && !DigitFollows(t)
    ensures n == m && s == t
  {
    NumberLead(n, s);
    NumberLead(m, t);
    if n < 0 {
      DropHead('-', Decimal(-n) + s, '-', Decimal(-m) + t);
      DecimalPrefixFree(-n, -m, s, t);
    } else {
      DecimalPrefixFree(n, m, s, t);
    }
  }

  lemma NumberLead(n: int, rest: string)
    ensures NumberThen(n, rest) != ""
    ensures if n < 0 then NumberThen(n, rest)[0] == '-' else IsDigit(NumberThen(n, rest)[0])
  {
    if n >= 0 { assert (Decimal(n) + rest)[0] == Decimal(n)[0]; }
  }

  datatype Kind = NullKind | TrueKind | FalseKind | NumKind | StrKind | ArrKind | ObjKind | NoKind

  function KindOf(v: Json): Kind {
    match v
    case Null => NullKind
    case Bool(b) => if b then TrueKind else FalseKind
    case Num(_) => NumKind
    case Str(_) => StrKind
    case Arr(_) => ArrKind
    case Obj(_) => ObjKind
  }

  function KindOfLead(c: char): Kind {
    if c == 'n' then NullKind else if c == 't' then TrueKind else if c == 'f' then FalseKind
    else if c == '-' || IsDigit(c) then NumKind
    else if c == '"' then StrKind else if c == '[' then ArrKind else if c == '{' then ObjKind else NoKind
  }

  /** The first character of a printed value tells its kind. */
  lemma LeadTellsKind(v: Json, rest: string)
    ensures PrintThen(v, rest) != "" && KindOfLead(PrintThen(v, rest)[0]) == KindOf(v)
  {
    if v.Num? { NumberLead(v.n, rest); }
  }

  /** A printed value can be read back from the front of a text: printing is injective. */
  lemma {:induction false} PrintPrefixFree(v: Json, w: Json, s: string, t: string)
    requires PrintThen(v, s) == PrintThen(w, t)
    requires !DigitFollows(s) && !DigitFollows(t)
    ensures v == w && s == t
    decreases v, 1
  {
    LeadTellsKind(v, s);
    LeadTellsKind(w, t);
    match v
    case Num(n) => NumberPrefixFree(n, w.n, s, t);
    case Str(x) => QuotePrefixFree(x, w.s, s, t);
    case Arr(a) => ArrayPrefixFree(a, w.items, s, t);
    case Obj(a) => ObjectPrefixFree(a, w.fields, s, t);
    case _ =>
      var k := |PrintThen(v, "")|;
      assert s == PrintThen(v, s)[k..] && t == PrintThen(w, t)[k..];
  }

  lemma {:induction false} ArrayPrefixFree(a: seq<Json>, b: seq<Json>, s: string, t: string)
    requires PrintThen(Arr(a), s) == PrintThen(Arr(b), t)
    ensures a == b && s == t
    decreases a, 0
  {
    var x := if a == [] then [']'] + s else PrintThen(a[0], ItemsThen(a[1..], s));
    var y := if b == [] then [']'] + t else PrintThen(b[0], ItemsThen(b[1..], t));
    DropHead('[', x, '[', y);
    if a != [] { LeadTellsKind(a[0], ItemsThen(a[1..], s)); }
    if b != [] { LeadTellsKind(b[0], ItemsThen(b[1..], t)); }
    if a == [] {
      DropHead(']', s, ']', t);
    } else {
      PrintPrefixFree(a[0], b[0], ItemsThen(a[1..], s), ItemsThen(b[1..], t));
      ItemsPrefixFree(a[1..], b[1..], s, t);
      assert a == [a[0]] + a[1..] && b == [b[0]] + b[1..];
    }
  }

  lemma {:induction false} ItemsPrefixFree(a: seq<Json>, b: seq<Json>, s: string, t: string)
    requires ItemsThen(a, s) == ItemsThen(b, t)
    ensures a == b && s == t
    decreases a, 0
  {
    var x := if a == [] then s else PrintThen(a[0], ItemsThen(a[1..], s));
    var y := if b == [] then t else PrintThen(b[0], ItemsThen(b[1..], t));
    DropHead(if a == [] then ']' else ',', x, if b == [] then ']' else ',', y);
    if a != [] {
      PrintPrefixFree(a[0], b[0], ItemsThen(a[1..], s), ItemsThen(b[1..], t));
      ItemsPrefixFree(a[1..], b[1..], s, t);
      assert a == [a[0]] + a[1..] && b == [b[0]] + b[1..];
    }
  }

  lemma {:induction false} FieldPrefixFree(f: Field, g: Field, s: string, t: string)
    requires FieldThen(f, s) == FieldThen(g, t)
    requires !DigitFollows(s) && !DigitFollows(t)
    ensures f == g && s == t
    decreases f, 2
  {
    var x, y := PrintThen(f.value, s), PrintThen(g.value, t);
    QuotePrefixFree(f.key, g.key, [':'] + x, [':'] + y);
    DropHead(':', x, ':', y);
    PrintPrefixFree(f.value, g.value, s, t);
  }

  lemma {:induction false} ObjectPrefixFree(a: seq<Field>, b: seq<Field>, s: string, t: string)
    requires PrintThen(Obj(a), s) == PrintThen(Obj(b), t)
    ensures a == b && s == t
    decreases a, 0
  {
    var x := if a == [] then ['}'] + s else FieldThen(a[0], FieldsThen(a[1..], s));
    var y := if b == [] then ['}'] + t else FieldThen(b[0], FieldsThen(b[1..], t));
    DropHead('{', x, '{', y);
    assert (a != [] ==> x[0] == '"') && (b != [] ==> y[0] == '"');
    if a == [] {
      DropHead('}', s, '}', t);
    } else {
      FieldPrefixFree(a[0], b[0], FieldsThen(a[1..], s), FieldsThen(b[1..], t));
      FieldsPrefixFree(a[1..], b[1..], s, t);
      assert a == [a[0]] + a[1..] && b == [b[0]] + b[1..];
    }
  }

  lemma {:induction false} FieldsPrefixFree(a: seq<Field>, b: seq<Field>, s: string, t: string)
    requires FieldsThen(a, s) == FieldsThen(b, t)
    ensures a == b && s == t
    decreases a, 0
  {
    var x := if a == [] then s else FieldThen(a[0], FieldsThen(a[1..], s));
    var y := if b == [] then t else FieldThen(b[0], FieldsThen(b[1..], t));
    DropHead(if a == [] then '}' else ',', x, if b == [] then '}' else ',', y);
    if a != [] {
      FieldPrefixFree(a[0], b[0], FieldsThen(a[1..], s), FieldsThen(b[1..], t));
      FieldsPrefixFree(a[1..], b[1..], s, t);
      assert a == [a[0]] + a[1..] && b == [b[0]] + b[1..];
    }
  }

  lemma {:induction false} EscapeOneLine(s: string, rest: string)
    requires '\n' !in rest
    ensures '\n' !in EscapeThen(s, rest)
  {
    if s != "" { EscapeOneLine(s[1..], rest); }
  }

  /** A printed value is one line: control characters are escaped. */
  lemma {:induction false} PrintOneLine(v: Json, rest: string)
    requires '\n' !in rest
    ensures '\n' !in PrintThen(v, rest)
    decreases v, 1
  {
    match v
    case Num(n) =>
      var digits := Decimal(if n < 0 then -n else n);
      assert forall i | 0 <= i < |digits| :: IsDigit(digits[i]);
    case Str(s) => EscapeOneLine(s, rest);
    case Arr(items) =>
      if items != [] {
        ItemsOneLine(items[1..], rest);
        PrintOneLine(items[0], ItemsThen(items[1..], rest));
      }
    case Obj(fields) =>
      if fields != [] {
        FieldsOneLine(fields[1..], rest);
        FieldOneLine(fields[0], FieldsThen(fields[1..], rest));
      }
    case _ =>
  }

  lemma {:induction false} ItemsOneLine(items: seq<Json>, rest: string)
    requires '\n' !in rest
    ensures '\n' !in ItemsThen(items, rest)
    decreases items, 0
  {
    if items != [] {
      ItemsOneLine(items[1..], rest);
      PrintOneLine(items[0], ItemsThen(items[1..], rest));
    }
  }

  lemma {:induction false} FieldOneLine(f: Field, rest: string)
    requires '\n' !in rest
    ensures '\n' !in FieldThen(f, rest)
    decreases f, 2
  {
    PrintOneLine(f.value, rest);
    EscapeOneLine(f.key, [':'] + PrintThen(f.value, rest));
  }

  lemma {:induction false} FieldsOneLine(fields: seq<Field>, rest: string)
    requires '\n' !in rest
    ensures '\n' !in FieldsThen(fields, rest)
    decreases fields, 0
  {
    if fields != [] {
      FieldsOneLine(fields[1..], rest);
      FieldOneLine(fields[0], FieldsThen(fields[1..], rest));
    }
  }

  /** Signing text of a context: its key-sorted form, printed. */
  function ContextText(v: Json): string { Print(Sorted(v)) }

  /** Two contexts have the same signing text exactly when they differ in key order only. */
  lemma ContextTextIffSimilar(v: Json, w: Json)
    requires WellFormed(v) && WellFormed(w)
    ensures ContextText(v) == ContextText(w) <==> Similar(v, w)
  {
    SortedIffSimilar(v, w);
    if ContextText(v) == ContextText(w) {
      PrintPrefixFree(Sorted(v), Sorted(w), "", "");
    }
  }

  /** Key order is that of character codes: a proper beginning first, otherwise the smaller character at the first difference. */
  lemma {:induction false} KeyLessIff(a: string, b: string)
    ensures KeyLess(a, b) <==> exists n: nat :: DiffersAt(a, b, n)
  {
    if a == "" || b == "" || a[0] != b[0] {
      assert forall n: nat | DiffersAt(a, b, n) :: n == 0 || a[..n][0] == b[..n][0];
      assert KeyLess(a, b) ==> DiffersAt(a, b, 0);
    } else {
      KeyLessIff(a[1..], b[1..]);
      forall n: nat ensures DiffersAt(a[1..], b[1..], n) <==> DiffersAt(a, b, n + 1) {
        if n < |a| && n < |b| {
          assert a[..n + 1] == [a[0]] + a[1..][..n] && b[..n + 1] == [b[0]] + b[1..][..n];
          assert a[1..][..n] == a[..n + 1][1..] && b[1..][..n] == b[..n + 1][1..];
        }
      }
      if exists n: nat :: DiffersAt(a, b, n) {
        var n: nat :| DiffersAt(a, b, n);
        assert n > 0 && DiffersAt(a[1..], b[1..], n - 1);
      }
    }
  }

  predicate DiffersAt(a: string, b: string, n: nat) {
    n <= |a| && n < |b| && a[..n] == b[..n] && (n == |a| || a[n] < b[n])
  }

  /** The printed forms of the simple values. */
  lemma PrintedValues(n: int)
    requires 0 <= n < 10
    ensures Print(Null) == "null" && Print(Bool(true)) == "true" && Print(Bool(false)) == "false"
    ensures Print(Num(n)) == [('0' as int + n) as char] && (n > 0 ==> Print(Num(0 - n)) == ['-'] + Print(Num(n)))
    ensures Print(Str("")) == "\"\"" && Print(Arr([])) == "[]" && Print(Obj([])) == "{}"
  {
  }

  /** The printed form of a pair and of an object of one field, before any `rest`. */
  lemma PrintedPairs(v: Json, w: Json, key: string, rest: string)
    ensures PrintThen(Arr([v, w]), rest) == ['['] + PrintThen(v, [','] + PrintThen(w, [']'] + rest))
    ensures PrintThen(Obj([Field(key, v)]), rest) == ['{'] + PrintThen(Str(key), [':'] + PrintThen(v, ['}'] + rest))
  {
    assert [Field(key, v)][1..] == [] && [v, w][1..] == [w] && [w][1..] == [];
    assert ItemsThen([w], rest) == [','] + PrintThen(w, ItemsThen([], rest));
  }

  /** The characters that are escaped by a letter or by themselves. */
  lemma EscapedForms()
    ensures [EscapeChar('"'), EscapeChar('\\'), EscapeChar('\n'), EscapeChar('\r'), EscapeChar('\t'), EscapeChar('a')]
         == ["\\\"", "\\\\", "\\n", "\\r", "\\t", "a"]
  {
  }
}
