/** The compact JSON that `json.dumps` prints with `separators=(",", ":")` and its default ASCII
    escapes, for the values this repository prints: null, integers, strings and objects. */
module JsonText {
  import opened DecimalText

  // A text is a list of code points; nothing forbids surrogates, as in Python's `str`.
  type CodePoint = n: int | 0 <= n <= 0x10FFFF
  type Text = seq<CodePoint>

  datatype Json = Null | Num(n: int) | Str(s: Text) | Obj(fields: Fields)
  datatype Fields = End | More(key: Text, value: Json, rest: Fields)

  // ---------- UTF-16 and escapes ----------

  type Unit = n: int | 0 <= n <= 0xFFFF

  // A code point's one or two UTF-16 units.
  function UnitsOf(c: CodePoint): seq<Unit> {
    if c <= 0xFFFF then [c] else [0xD800 + (c - 0x10000) / 0x400, 0xDC00 + (c - 0x10000) % 0x400]
  }

  function Utf16(s: Text): seq<Unit> {
    if s == [] then [] else UnitsOf(s[0]) + Utf16(s[1..])
  }

  predicate Surrogate(c: int) { 0xD800 <= c <= 0xDFFF }

  predicate Scalar(s: Text) { forall i :: 0 <= i < |s| ==> !Surrogate(s[i]) }

  function HexDigit(d: nat): char
    requires d < 16
  {
    if d < 10 then '0' + d as char else 'a' + (d - 10) as char
  }

  predicate IsHex(c: char) { '0' <= c <= '9' || 'a' <= c <= 'f' }

  function HexValue(c: char): nat
    requires IsHex(c)
  {
    if c <= '9' then (c - '0') as nat else (c - 'a') as nat + 10
  }

  function Hex4(u: Unit): string {
    [HexDigit(u / 0x1000), HexDigit(u / 0x100 % 16), HexDigit(u / 16 % 16), HexDigit(u % 16)]
  }

  function Escape(u: Unit): (r: string)
    ensures r != []
  {
    if u == 0x22 then "\\\""
    else if u == 0x5C then "\\\\"
    else if u == 0x0A then "\\n"
    else if u == 0x0D then "\\r"
    else if u == 0x09 then "\\t"
    else if u == 0x0C then "\\f"
    else if u == 0x08 then "\\b"
    else if 0x20 <= u <= 0x7E then [u as char]
    else "\\u" + Hex4(u)
  }

  function EscapeAll(units: seq<Unit>): string {
    if units == [] then "" else Escape(units[0]) + EscapeAll(units[1..])
  }

  function Quote(s: Text): string {
    "\"" + EscapeAll(Utf16(s)) + "\""
  }

  // ---------- The printer ----------

  function Print(j: Json): string
    decreases j
  {
    match j
    case Null => "null"
    case Num(n) => IntText(n)
    case Str(s) => Quote(s)
    case Obj(fields) => "{" + PrintFields(fields) + "}"
  }

  function PrintFields(fs: Fields): string
    decreases fs
  {
    match fs
    case End => ""
    case More(key, value, rest) =>
      Quote(key) + (":" + (Print(value) + (if rest.End? then "" else "," + PrintFields(rest))))
  }

  /** Equal up to the UTF-16 form of their strings. */
  predicate Same(a: Json, b: Json)
    decreases a
  {
    match (a, b)
    case (Null, Null) => true
    case (Num(n), Num(m)) => n == m
    case (Str(s), Str(t)) => Utf16(s) == Utf16(t)
    case (Obj(f), Obj(g)) => SameFields(f, g)
    case _ => false
  }

  predicate SameFields(f: Fields, g: Fields)
    decreases f
  {
    match (f, g)
    case (End, End) => true
    case (More(k, v, r), More(l, w, q)) => Utf16(k) == Utf16(l) && Same(v, w) && SameFields(r, q)
    case _ => false
  }

  // ---------- Escapes are a prefix-free code ----------

  // The unit whose escape a text starts with, and the escape's length; (0, 0) when there is none.
  function ReadUnit(t: string): (int, nat) {
    if t == [] || t[0] == '"' then (0, 0)
    else if t[0] != '\\' then (t[0] as int, 1)
    else if |t| < 2 then (0, 0)
    else if t[1] == '"' then (0x22, 2)
    else if t[1] == '\\' then (0x5C, 2)
    else if t[1] == 'n' then (0x0A, 2)
    else if t[1] == 'r' then (0x0D, 2)
    else if t[1] == 't' then (0x09, 2)
    else if t[1] == 'f' then (0x0C, 2)
    else if t[1] == 'b' then (0x08, 2)
    else if |t| < 6 || !IsHex(t[2]) || !IsHex(t[3]) || !IsHex(t[4]) || !IsHex(t[5]) then (0, 0)
    else (((HexValue(t[2]) * 16 + HexValue(t[3])) * 16 + HexValue(t[4])) * 16 + HexValue(t[5]), 6)
  }

  lemma HexRoundTrip(d: nat)
    requires d < 16
    ensures IsHex(HexDigit(d)) && HexValue(HexDigit(d)) == d
  {
  }

  lemma HexSum(u: Unit)
    ensures ((u / 0x1000 * 16 + u / 0x100 % 16) * 16 + u / 16 % 16) * 16 + u % 16 == u
  {
    assert u / 0x100 == u / 16 / 16 && u / 0x1000 == u / 0x100 / 16;
  }

  lemma Hex4RoundTrip(u: Unit, t: string)
    requires 6 <= |t| && t[0] == '\\' && t[1] == 'u' && t[2..6] == Hex4(u)
    ensures ReadUnit(t) == (u, 6)
  {
    var h := t[2..6];
    assert t[2] == h[0] && t[3] == h[1] && t[4] == h[2] && t[5] == h[3];
    HexRoundTrip(u / 0x1000);
    HexRoundTrip(u / 0x100 % 16);
    HexRoundTrip(u / 16 % 16);
    HexRoundTrip(u % 16);
    HexSum(u);
  }

  lemma EscapeRoundTrip(u: Unit, rest: string)
    ensures ReadUnit(Escape(u) + rest) == (u, |Escape(u)|)
  {
    var t := Escape(u) + rest;
    if t[0] == '\\' && t[1] == 'u' {
      assert t[2..6] == Hex4(u);
      Hex4RoundTrip(u, t);
    }
  }

  lemma Cancel(p: string, q: string, x: string, y: string)
    requires p + x == q + y && |p| == |q|
    ensures p == q && x == y
  {
    assert p == (p + x)[..|p|] && q == (q + y)[..|q|];
    assert x == (p + x)[|p|..] && y == (q + y)[|q|..];
  }

  lemma EscapesTell(u: Unit, v: Unit, s: string, t: string)
    requires Escape(u) + s == Escape(v) + t
    ensures u == v && s == t
  {
    EscapeRoundTrip(u, s);
    EscapeRoundTrip(v, t);
    Cancel(Escape(u), Escape(v), s, t);
  }

  lemma EscapeNotQuote(u: Unit, s: string, x: string)
    ensures Escape(u) + s != "\"" + x
  {
    assert (Escape(u) + s)[0] == Escape(u)[0] && ("\"" + x)[0] == '"';
  }

  lemma Assoc(p: string, q: string, r: string)
    ensures (p + q) + r == p + (q + r)
  {
  }

  lemma SplitEscapes(a: seq<Unit>, p: string)
    ensures EscapeAll(a) + p == if a == [] then p else Escape(a[0]) + (EscapeAll(a[1..]) + p)
  {
    if a == [] {
      assert EscapeAll(a) + p == p;
    } else {
      Assoc(Escape(a[0]), EscapeAll(a[1..]), p);
    }
  }

  /** A text that starts with the bodies of two quoted strings starts with one body only. */
  lemma {:induction false} EscapesCancel(a: seq<Unit>, b: seq<Unit>, x: string, y: string)
    requires EscapeAll(a) + ("\"" + x) == EscapeAll(b) + ("\"" + y)
    ensures a == b && x == y
    decreases |a|
  {
    SplitEscapes(a, "\"" + x);
    SplitEscapes(b, "\"" + y);
    if a == [] && b == [] {
      Cancel("\"", "\"", x, y);
    } else if a == [] {
      EscapeNotQuote(b[0], EscapeAll(b[1..]) + ("\"" + y), x);
    } else if b == [] {
      EscapeNotQuote(a[0], EscapeAll(a[1..]) + ("\"" + x), y);
    } else {
      EscapesTell(a[0], b[0], EscapeAll(a[1..]) + ("\"" + x), EscapeAll(b[1..]) + ("\"" + y));
      EscapesCancel(a[1..], b[1..], x, y);
      assert a == [a[0]] + a[1..] && b == [b[0]] + b[1..];
    }
  }

  lemma OpenQuote(a: string, x: string)
    ensures "\"" + a + "\"" + x == "\"" + (a + ("\"" + x))
  {
  }

  lemma QuotesCancel(a: Text, b: Text, x: string, y: string)
    requires Quote(a) + x == Quote(b) + y
    ensures Utf16(a) == Utf16(b) && x == y
  {
    OpenQuote(EscapeAll(Utf16(a)), x);
    OpenQuote(EscapeAll(Utf16(b)), y);
    Cancel("\"", "\"", EscapeAll(Utf16(a)) + ("\"" + x), EscapeAll(Utf16(b)) + ("\"" + y));
    EscapesCancel(Utf16(a), Utf16(b), x, y);
  }

  // ---------- The printer is injective ----------

  // What may follow a value: nothing, a comma or a closing brace.
  predicate Follows(x: string) {
    x == [] || x[0] == ',' || x[0] == '}'
  }

  predicate Plain(p: string) {
    forall i :: 0 <= i < |p| ==> IsDigit(p[i]) || p[i] == '-'
  }

  lemma PlainNotLonger(p: string, q: string, x: string, y: string)
    requires p + x == q + y && Plain(q) && Follows(x)
    ensures |q| <= |p|
  {
    var s := p + x;
    assert x != [] ==> s[|p|] == x[0];
    assert forall k :: 0 <= k < |q| ==> s[k] == q[k];
    assert |s| == |p| + |x| == |q| + |y|;
    if |p| < |q| {
      assert false;
    }
  }

  lemma NumbersCancel(n: int, m: int, x: string, y: string)
    requires IntText(n) + x == IntText(m) + y && Follows(x) && Follows(y)
    ensures n == m && x == y
  {
    var p, q := IntText(n), IntText(m);
    IntTextPlain(n);
    IntTextPlain(m);
    PlainNotLonger(p, q, x, y);
    PlainNotLonger(q, p, y, x);
    Cancel(p, q, x, y);
    IntRoundTrip(n);
    IntRoundTrip(m);
  }

  // The first character tells the kinds of values apart.
  function Kind(j: Json): nat {
    match j case Null => 0 case Num(_) => 1 case Str(_) => 2 case Obj(_) => 3
  }

  lemma KindShows(j: Json, x: string)
    ensures Print(j) != [] && (Print(j) + x)[0] == Print(j)[0]
    ensures Kind(j) == var c := Print(j)[0]; if c == 'n' then 0 else if c == '"' then 2 else if c == '{' then 3 else 1
  {
    if j.Num? {
      IntTextPlain(j.n);
    }
  }

  lemma {:induction false} ValuesCancel(a: Json, b: Json, x: string, y: string)
    requires Print(a) + x == Print(b) + y && Follows(x) && Follows(y)
    ensures Same(a, b) && x == y
    decreases a, 1
  {
    KindShows(a, x);
    KindShows(b, y);
    match a
    case Null => Cancel("null", "null", x, y);
    case Num(n) => NumbersCancel(n, b.n, x, y);
    case Str(s) => QuotesCancel(s, b.s, x, y);
    case Obj(f) => ObjectsCancel(f, b.fields, x, y);
  }

  lemma {:induction false} ObjectsCancel(f: Fields, g: Fields, x: string, y: string)
    requires Print(Obj(f)) + x == Print(Obj(g)) + y
    ensures SameFields(f, g) && x == y
    decreases f, 2
  {
    var p, q := PrintFields(f) + ("}" + x), PrintFields(g) + ("}" + y);
    OpenObject(f, x);
    OpenObject(g, y);
    Cancel("{", "{", p, q);
    FieldsCancel(f, g, x, y);
  }

  lemma OpenObject(f: Fields, x: string)
    ensures Print(Obj(f)) + x == "{" + (PrintFields(f) + ("}" + x))
  {
  }

  // What follows an object's first value.
  function Tail(rest: Fields, x: string): string {
    if rest.End? then "}" + x else "," + (PrintFields(rest) + ("}" + x))
  }

  lemma SplitFields(f: Fields, x: string)
    requires f.More?
    ensures PrintFields(f) + ("}" + x) == Quote(f.key) + (":" + (Print(f.value) + Tail(f.rest, x)))
  {
  }

  lemma FieldsShow(f: Fields, x: string)
    ensures (PrintFields(f) + ("}" + x))[0] == if f.End? then '}' else '"'
  {
  }

  lemma {:induction false} FieldsCancel(f: Fields, g: Fields, x: string, y: string)
    requires PrintFields(f) + ("}" + x) == PrintFields(g) + ("}" + y)
    ensures SameFields(f, g) && x == y
    decreases f, 1
  {
    FieldsShow(f, x);
    FieldsShow(g, y);
    if f.End? {
      assert PrintFields(f) + ("}" + x) == "}" + x && PrintFields(g) + ("}" + y) == "}" + y;
      Cancel("}", "}", x, y);
    } else {
      SplitFields(f, x);
      SplitFields(g, y);
      MoreCancel(f, g, x, y);
    }
  }

  lemma {:induction false} MoreCancel(f: Fields, g: Fields, x: string, y: string)
    requires f.More? && g.More?
    requires Quote(f.key) + (":" + (Print(f.value) + Tail(f.rest, x)))
             == Quote(g.key) + (":" + (Print(g.value) + Tail(g.rest, y)))
    ensures SameFields(f, g) && x == y
    decreases f, 0
  {
    var p, q := Print(f.value) + Tail(f.rest, x), Print(g.value) + Tail(g.rest, y);
    QuotesCancel(f.key, g.key, ":" + p, ":" + q);
    Cancel(":", ":", p, q);
    ValuesCancel(f.value, g.value, Tail(f.rest, x), Tail(g.rest, y));
    if f.rest.End? {
      Cancel("}", "}", x, y);
    } else {
      Cancel(",", ",", PrintFields(f.rest) + ("}" + x), PrintFields(g.rest) + ("}" + y));
      FieldsCancel(f.rest, g.rest, x, y);
    }
  }

  lemma {:induction false} SamePrint(a: Json, b: Json)
    requires Same(a, b)
    ensures Print(a) == Print(b)
    decreases a
  {
    if a.Obj? {
      SamePrintFields(a.fields, b.fields);
    }
  }

  lemma {:induction false} SamePrintFields(f: Fields, g: Fields)
    requires SameFields(f, g)
    ensures PrintFields(f) == PrintFields(g)
    decreases f
  {
    if f.More? {
      SamePrint(f.value, g.value);
      SamePrintFields(f.rest, g.rest);
    }
  }

  /** Two values print alike exactly when they are equal up to the UTF-16 form of their strings. */
  lemma PrintsAlikeIff(a: Json, b: Json)
    ensures Print(a) == Print(b) <==> Same(a, b)
  {
    if Print(a) == Print(b) {
      assert Print(a) + "" == Print(b) + "";
      ValuesCancel(a, b, "", "");
    }
    if Same(a, b) {
      SamePrint(a, b);
    }
  }

  // ---------- Strings of Unicode scalar values ----------

  lemma UnitsTell(c: CodePoint, d: CodePoint, x: seq<Unit>, y: seq<Unit>)
    requires UnitsOf(c) + x == UnitsOf(d) + y && !Surrogate(c) && !Surrogate(d)
    ensures c == d && x == y
  {
    var s, t := UnitsOf(c) + x, UnitsOf(d) + y;
    assert s[0] == UnitsOf(c)[0] && t[0] == UnitsOf(d)[0];
    assert |UnitsOf(c)| == |UnitsOf(d)|;
    assert x == s[|UnitsOf(c)|..] && y == t[|UnitsOf(d)|..];
    if 0xFFFF < c {
      assert s[1] == UnitsOf(c)[1] && t[1] == UnitsOf(d)[1];
    }
  }

  lemma {:induction false} Utf16Injective(s: Text, t: Text)
    requires Scalar(s) && Scalar(t) && Utf16(s) == Utf16(t)
    ensures s == t
    decreases |s|
  {
    if s != [] && t != [] {
      UnitsTell(s[0], t[0], Utf16(s[1..]), Utf16(t[1..]));
      Utf16Injective(s[1..], t[1..]);
      assert s == [s[0]] + s[1..] && t == [t[0]] + t[1..];
    }
  }

  predicate AllScalar(j: Json)
    decreases j
  {
    match j case Str(s) => Scalar(s) case Obj(f) => FieldsScalar(f) case _ => true
  }

  predicate FieldsScalar(f: Fields)
    decreases f
  {
    f.More? ==> Scalar(f.key) && AllScalar(f.value) && FieldsScalar(f.rest)
  }

  lemma {:induction false} SameIsEqual(a: Json, b: Json)
    requires Same(a, b) && AllScalar(a) && AllScalar(b)
    ensures a == b
    decreases a
  {
    if a.Str? {
      Utf16Injective(a.s, b.s);
    } else if a.Obj? {
      SameFieldsEqual(a.fields, b.fields);
    }
  }

  lemma {:induction false} SameFieldsEqual(f: Fields, g: Fields)
    requires SameFields(f, g) && FieldsScalar(f) && FieldsScalar(g)
    ensures f == g
    decreases f
  {
    if f.More? {
      Utf16Injective(f.key, g.key);
      SameIsEqual(f.value, g.value);
      SameFieldsEqual(f.rest, g.rest);
    }
  }

  /** On strings of Unicode scalar values the printer is injective. */
  lemma PrintInjective(a: Json, b: Json)
    requires AllScalar(a) && AllScalar(b) && Print(a) == Print(b)
    ensures a == b
  {
    PrintsAlikeIff(a, b);
    SameIsEqual(a, b);
  }

  /** Without that it is not: a surrogate pair and the code point it encodes print alike. */
  lemma SurrogatesCollide()
    ensures Str([0xD83D, 0xDE00]) != Str([0x1F600])
    ensures Print(Str([0xD83D, 0xDE00])) == Print(Str([0x1F600]))
  {
    var s: Text, t: Text := [0xD83D, 0xDE00], [0x1F600];
    UnitsOfTwo(0xD83D, 0xDE00);
    UnitsOfOne(0x1F600);
    assert Utf16(s) == Utf16(t);
    assert |s| != |t|;
  }

  lemma UnitsOfOne(c: CodePoint)
    ensures Utf16([c]) == UnitsOf(c)
  {
    assert [c][1..] == [];
    assert UnitsOf(c) + [] == UnitsOf(c);
  }

  lemma UnitsOfTwo(c: CodePoint, d: CodePoint)
    ensures Utf16([c, d]) == UnitsOf(c) + UnitsOf(d)
  {
    assert [c, d][1..] == [d];
    UnitsOfOne(d);
  }

  // ---------- The output is ASCII ----------

  predicate Ascii(t: string) { forall i :: 0 <= i < |t| ==> ' ' <= t[i] <= '~' }

  /** Printable characters but the quote and the backslash stand for themselves; these two and the five
      control characters with a short form take two characters, everything else six. */
  lemma EscapeForms(u: Unit)
    ensures Ascii(Escape(u))
    ensures |Escape(u)| == 1 <==> ' ' as int <= u <= '~' as int && u != '"' as int && u != '\\' as int
    ensures |Escape(u)| == 1 ==> Escape(u)[0] as int == u
    ensures |Escape(u)| == 2 <==> u in {'"' as int, '\\' as int, 8, 9, 10, 12, 13}
    ensures |Escape(u)| in {1, 2, 6} && (|Escape(u)| == 6 ==> Escape(u)[..2] == "\\u")
  {
    HexRoundTrip(u / 0x1000);
    HexRoundTrip(u / 0x100 % 16);
    HexRoundTrip(u / 16 % 16);
    HexRoundTrip(u % 16);
  }

  lemma {:induction false} EscapesAscii(units: seq<Unit>)
    ensures Ascii(EscapeAll(units))
  {
    if units != [] {
      EscapeForms(units[0]);
      EscapesAscii(units[1..]);
    }
  }

  /** Every printed character is printable ASCII, so the text and its UTF-8 bytes determine each
      other. */
  lemma {:induction false} PrintAscii(j: Json)
    ensures Ascii(Print(j))
    decreases j
  {
    match j
    case Null =>
    case Num(n) => IntTextPlain(n);
    case Str(s) => EscapesAscii(Utf16(s));
    case Obj(f) => FieldsAscii(f);
  }

  lemma Joined(p: string, q: string)
    requires Ascii(p) && Ascii(q)
    ensures Ascii(p + q)
  {
  }

  lemma {:induction false} FieldsAscii(f: Fields)
    ensures Ascii(PrintFields(f))
    decreases f
  {
    if f.More? {
      EscapesAscii(Utf16(f.key));
      PrintAscii(f.value);
      FieldsAscii(f.rest);
      var tail := if f.rest.End? then "" else "," + PrintFields(f.rest);
      assert Ascii(tail);
      Joined(Print(f.value), tail);
      Joined(":", Print(f.value) + tail);
      Joined(Quote(f.key), ":" + (Print(f.value) + tail));
    }
  }
}
