// The canonical form the audit chain and the anchor commit to:
// `json.dumps(value, sort_keys=True, separators=(",", ":"), ensure_ascii=True)`.
module CanonicalJson {
  import opened StringOrder
  import opened Sequences

  // A JSON value as `json.loads` returns it. A float is kept as the text Python prints for it.
  datatype Json =
    | JNull
    | JBool(b: bool)
    | JInt(n: int)
    | JFloat(text: FloatText)
    | JStr(s: string)
    | JArr(items: seq<Json>)
    | JObj(fields: Dict)

  type Dict = map<string, Json>

  // `repr` of a float uses these characters and always at least one that no integer uses.
  type FloatText = t: string | IsFloatText(t) witness "0.5"

  predicate IsFloatChar(c: char) {
    '0' <= c <= '9' || c in "-+.eINafinty"
  }

  predicate IsFloatText(t: string) {
    && t != ""
    && t[0] in "-0123456789IN"
    && (forall i :: 0 <= i < |t| ==> IsFloatChar(t[i]))
    && ('.' in t || 'e' in t || 'I' in t || 'N' in t)
  }

  // ---------------------------------------------------------------- key order

  predicate IsLeast(k: string, keys: set<string>) {
    k in keys && forall x :: x in keys ==> LexLe(k, x)
  }

  lemma {:induction false} LeastExists(keys: set<string>)
    requires keys != {}
    ensures exists k :: IsLeast(k, keys)
    ensures forall k, k' :: IsLeast(k, keys) && IsLeast(k', keys) ==> k == k'
  {
    var x :| x in keys;
    if keys == {x} {
      LexTotal(x, x);
      assert IsLeast(x, keys);
    } else {
      LeastExists(keys - {x});
      var y :| IsLeast(y, keys - {x});
      LexTotal(x, y);
      LexTotal(x, x);
      if LexLe(x, y) {
        forall z | z in keys ensures LexLe(x, z) {
          if z != x { LexTransitive(x, y, z); }
        }
        assert IsLeast(x, keys);
      } else {
        assert IsLeast(y, keys);
      }
    }
    forall k, k' | IsLeast(k, keys) && IsLeast(k', keys) ensures k == k' {
      LexTotal(k, k');
    }
  }

  function Least(keys: set<string>): (k: string)
    requires keys != {}
    ensures IsLeast(k, keys)
  {
    LeastExists(keys);
    var k :| IsLeast(k, keys);
    k
  }

  // The keys of a dict in the order they are printed.
  function SortedKeys(keys: set<string>): (r: seq<string>)
    ensures forall k :: k in r <==> k in keys
  {
    if keys == {} then [] else
      var k := Least(keys);
      [k] + SortedKeys(keys - {k})
  }

  // ---------------------------------------------------------------- printing

  function DecNat(n: nat): string {
    if n < 10 then [Digit(n)] else DecNat(n / 10) + [Digit(n % 10)]
  }

  function Dec(n: int): string {
    if n < 0 then "-" + DecNat(-n) else DecNat(n)
  }

  function Hex(d: nat): char
    requires d < 16
  {
    "0123456789abcdef"[d]
  }

  function Unit(u: nat): string
    requires u < 0x1_0000
  {
    ['\\', 'u', Hex(u / 0x1000), Hex(u / 0x100 % 0x10), Hex(u / 0x10 % 0x10), Hex(u % 0x10)]
  }

  // One character of a string literal under `ensure_ascii=True`; a character beyond the basic plane
  // is printed as its UTF-16 surrogate pair.
  function Esc(c: char): string {
    if c == '"' then "\\\""
    else if c == '\\' then "\\\\"
    else if c == '\n' then "\\n"
    else if c == '\r' then "\\r"
    else if c == '\t' then "\\t"
    else if c as int == 0x0C then "\\f"
    else if c as int == 0x08 then "\\b"
    else if ' ' <= c <= '~' then [c]
    else if c as int < 0x1_0000 then Unit(c as int)
    else
      var v := c as int - 0x1_0000;
      Unit(0xD800 + v / 0x400) + Unit(0xDC00 + v % 0x400)
  }

  function EscAll(s: string): string {
    if s == "" then "" else Esc(s[0]) + EscAll(s[1..])
  }

  function Quote(s: string): string {
    "\"" + EscAll(s) + "\""
  }

  function Print(v: Json): string
    decreases v, 1, 0
  {
    match v
    case JNull => "null"
    case JBool(b) => if b then "true" else "false"
    case JInt(n) => Dec(n)
    case JFloat(t) => t
    case JStr(s) => Quote(s)
    case JArr(items) => "[" + PrintItems(items, true)
    case JObj(fields) => "{" + PrintFields(v, SortedKeys(fields.Keys), true)
  }

  function PrintItems(items: seq<Json>, first: bool): string
    decreases items, 1
  {
    if items == [] then "]"
    else (if first then "" else ",") + Print(items[0]) + PrintItems(items[1..], false)
  }

  function PrintFields(v: Json, keys: seq<string>, first: bool): string
    requires v.JObj? && forall k :: k in keys ==> k in v.fields
    decreases v, 0, |keys|
  {
    if keys == [] then "}"
    else
      (if first then "" else ",") + Quote(keys[0]) + ":" + Print(v.fields[keys[0]])
      + PrintFields(v, keys[1..], false)
  }

  // ---------------------------------------------------------------- injectivity

  lemma {:induction false} DecNatDigits(n: nat)
    ensures DecNat(n) != "" && forall c :: c in DecNat(n) ==> '0' <= c <= '9'
  {
    if n >= 10 { DecNatDigits(n / 10); }
  }

  lemma {:induction false} DecNatInjective(m: nat, n: nat)
    requires DecNat(m) == DecNat(n)
    ensures m == n
  {
    DecNatDigits(m / 10);
    DecNatDigits(n / 10);
    if m >= 10 && n >= 10 {
      var a, b := DecNat(m / 10), DecNat(n / 10);
      assert a == (a + [Digit(m % 10)])[..|DecNat(m)| - 1] == DecNat(m)[..|DecNat(m)| - 1];
      assert b == (b + [Digit(n % 10)])[..|DecNat(n)| - 1] == DecNat(n)[..|DecNat(n)| - 1];
      DecNatInjective(m / 10, n / 10);
      assert DecNat(m)[|DecNat(m)| - 1] == Digit(m % 10);
      assert DecNat(n)[|DecNat(n)| - 1] == Digit(n % 10);
    }
  }

  lemma DecShape(n: int)
    ensures Dec(n) != "" && (Dec(n)[0] == '-' <==> n < 0)
    ensures forall i :: 0 <= i < |Dec(n)| ==> Dec(n)[i] == '-' || '0' <= Dec(n)[i] <= '9'
  {
    var d := DecNat(if n < 0 then -n else n);
    DecNatDigits(if n < 0 then -n else n);
    assert forall i :: 0 <= i < |d| ==> d[i] in d;
  }

  lemma DecInjective(m: int, n: int)
    requires Dec(m) == Dec(n)
    ensures m == n
  {
    DecShape(m);
    DecShape(n);
    if m < 0 {
      assert Dec(m)[1..] == DecNat(-m) && Dec(n)[1..] == DecNat(-n);
      DecNatInjective(-m, -n);
    } else {
      DecNatInjective(m, n);
    }
  }

  lemma HexInjective(a: nat, b: nat)
    requires a < 16 && b < 16 && Hex(a) == Hex(b)
    ensures a == b
  {
  }

  lemma Nibbles(u: nat)
    requires u < 0x1_0000
    ensures u / 0x1000 < 16
    ensures u == u / 0x1000 * 0x1000 + u / 0x100 % 0x10 * 0x100 + u / 0x10 % 0x10 * 0x10 + u % 0x10
  {
    assert u / 0x10 == u / 0x100 * 0x10 + u / 0x10 % 0x10;
    assert u / 0x100 == u / 0x1000 * 0x10 + u / 0x100 % 0x10;
  }

  lemma UnitInjective(u: nat, w: nat)
    requires u < 0x1_0000 && w < 0x1_0000 && Unit(u) == Unit(w)
    ensures u == w
  {
    Nibbles(u);
    Nibbles(w);
    var s, t := Unit(u), Unit(w);
    assert s[2] == t[2] && s[3] == t[3] && s[4] == t[4] && s[5] == t[5];
    HexInjective(u / 0x1000, w / 0x1000);
    HexInjective(u / 0x100 % 0x10, w / 0x100 % 0x10);
    HexInjective(u / 0x10 % 0x10, w / 0x10 % 0x10);
    HexInjective(u % 0x10, w % 0x10);
  }

  // The escapes of two characters cannot be told apart only if the characters are equal, whatever
  // follows them: the escape is a prefix-free code, and it never starts with a quote.
  lemma EscPrefixFree(c: char, d: char, x: string, y: string)
    requires Esc(c) + x == Esc(d) + y
    ensures c == d && x == y
  {
    var a, b := Esc(c) + x, Esc(d) + y;
    EscShape(c);
    EscShape(d);
    assert a[0] == Esc(c)[0] && b[0] == Esc(d)[0];
    if a[0] == '\\' {
      assert a[1] == Esc(c)[1] && b[1] == Esc(d)[1];
      if a[1] == 'u' {
        assert a[..6] == Esc(c)[..6] && b[..6] == Esc(d)[..6];
        UnitInjective(FirstUnit(c), FirstUnit(d));
        if 0xD800 <= FirstUnit(c) < 0xDC00 {
          assert a[6..12] == Esc(c)[6..] && b[6..12] == Esc(d)[6..];
          UnitInjective(SecondUnit(c), SecondUnit(d));
        }
      }
    }
    assert c == d;
    assert x == a[|Esc(c)|..] && y == b[|Esc(d)|..];
  }

  function FirstUnit(c: char): (u: nat)
    ensures u < 0x1_0000
  {
    if c as int < 0x1_0000 then c as int else 0xD800 + (c as int - 0x1_0000) / 0x400
  }

  function SecondUnit(c: char): (u: nat)
    ensures u < 0x1_0000
  {
    if c as int < 0x1_0000 then 0 else 0xDC00 + (c as int - 0x1_0000) % 0x400
  }

  lemma HexPrintable(d: nat)
    requires d < 16
    ensures ' ' <= Hex(d) <= '~'
  {
  }

  lemma UnitPrintable(u: nat)
    requires u < 0x1_0000
    ensures |Unit(u)| == 6 && Unit(u)[0] == '\\' && Unit(u)[1] == 'u'
    ensures forall i :: 0 <= i < 6 ==> ' ' <= Unit(u)[i] <= '~'
  {
    HexPrintable(u / 0x1000);
    HexPrintable(u / 0x100 % 0x10);
    HexPrintable(u / 0x10 % 0x10);
    HexPrintable(u % 0x10);
  }

  predicate IsShort(c: char) {
    c in "\"\\\n\r\t" || c as int == 0x0C || c as int == 0x08
  }

  lemma EscShape(c: char)
    ensures Esc(c) != "" && Esc(c)[0] != '"'
    ensures Esc(c)[0] == '\\' <==> |Esc(c)| > 1
    ensures |Esc(c)| == 1 ==> Esc(c) == [c]
    ensures |Esc(c)| > 1 && Esc(c)[1] == 'u' ==>
              && |Esc(c)| == (if c as int < 0x1_0000 then 6 else 12)
              && Esc(c)[..6] == Unit(FirstUnit(c))
              && (c as int >= 0x1_0000 ==> Esc(c)[6..] == Unit(SecondUnit(c)))
    ensures |Esc(c)| > 1 && Esc(c)[1] != 'u' ==> |Esc(c)| == 2 && IsShort(c)
    ensures IsShort(c) ==> |Esc(c)| == 2 && Esc(c)[1] != 'u'
    ensures forall i :: 0 <= i < |Esc(c)| ==> ' ' <= Esc(c)[i] <= '~'
  {
    if IsShort(c) {
      EscShort(c);
    } else if !(' ' <= c <= '~') {
      UnitPrintable(FirstUnit(c));
      UnitPrintable(SecondUnit(c));
      if c as int >= 0x1_0000 {
        assert Esc(c) == Unit(FirstUnit(c)) + Unit(SecondUnit(c));
      }
    }
  }

  lemma EscShort(c: char)
    requires IsShort(c)
    ensures |Esc(c)| == 2 && Esc(c)[0] == '\\' && Esc(c)[1] in "\"\\nrtfb"
  {
  }

  lemma EscAllHead(s: string, x: string)
    ensures (EscAll(s) + "\"" + x)[0] == '"' <==> s == ""
  {
    if s != "" { EscShape(s[0]); }
  }

  lemma {:induction false} EscAllPrefixFree(s: string, t: string, x: string, y: string)
    requires EscAll(s) + "\"" + x == EscAll(t) + "\"" + y
    ensures s == t && x == y
  {
    var a, b := EscAll(s) + "\"" + x, EscAll(t) + "\"" + y;
    EscAllHead(s, x);
    EscAllHead(t, y);
    if s == "" {
      assert x == a[1..] && y == b[1..];
    } else {
      var p, q := EscAll(s[1..]) + "\"" + x, EscAll(t[1..]) + "\"" + y;
      EscAllUnfold(s, x);
      EscAllUnfold(t, y);
      EscPrefixFree(s[0], t[0], p, q);
      EscAllPrefixFree(s[1..], t[1..], x, y);
      assert s == [s[0]] + s[1..] && t == [t[0]] + t[1..];
    }
  }

  lemma EscAllUnfold(s: string, x: string)
    requires s != ""
    ensures EscAll(s) + "\"" + x == Esc(s[0]) + (EscAll(s[1..]) + "\"" + x)
  {
    var e, r := Esc(s[0]), EscAll(s[1..]);
    assert (e + r) + "\"" + x == e + (r + "\"" + x);
  }

  lemma QuotePrefixFree(s: string, t: string, x: string, y: string)
    requires Quote(s) + x == Quote(t) + y
    ensures s == t && x == y
  {
    assert (Quote(s) + x)[1..] == EscAll(s) + "\"" + x;
    assert (Quote(t) + y)[1..] == EscAll(t) + "\"" + y;
    EscAllPrefixFree(s, t, x, y);
  }

  // What can follow a value inside a document: nothing, or one of the closing or separating characters.
  predicate Terminated(x: string) {
    x == "" || x[0] in ",]}"
  }

  predicate IsNumber(v: Json) { v.JInt? || v.JFloat? }

  predicate NumberChars(t: string) {
    t != "" && t[0] in "-0123456789IN" && forall i :: 0 <= i < |t| ==> ' ' <= t[i] <= '~' && t[i] !in ",]}"
  }

  lemma NumberText(v: Json)
    requires IsNumber(v)
    ensures NumberChars(Print(v))
  {
    if v.JInt? {
      DecShape(v.n);
      assert Dec(v.n)[0] in "-0123456789IN";
    } else {
      FloatShape(v.text);
    }
  }

  lemma FloatShape(t: FloatText)
    ensures NumberChars(t)
  {
    forall i | 0 <= i < |t| ensures ' ' <= t[i] <= '~' && t[i] !in ",]}" {
      FloatCharShape(t[i]);
    }
  }

  lemma FloatCharShape(c: char)
    requires IsFloatChar(c)
    ensures ' ' <= c <= '~' && c !in ",]}"
  {
  }

  lemma FloatIsNotDec(t: FloatText, n: int)
    ensures t != Dec(n)
  {
    DecShape(n);
    var c :| c in t && c in ".eIN";
    assert exists i :: 0 <= i < |t| && t[i] == c;
  }

  lemma NumberInjective(v: Json, w: Json)
    requires IsNumber(v) && IsNumber(w) && Print(v) == Print(w)
    ensures v == w
  {
    match (v, w)
    case (JInt(m), JInt(n)) => DecInjective(m, n);
    case (JFloat(t), JInt(n)) => FloatIsNotDec(t, n);
    case (JInt(n), JFloat(t)) => FloatIsNotDec(t, n);
    case (JFloat(_), JFloat(_)) =>
  }

  lemma NumberEnds(s: string, t: string, x: string, y: string)
    requires NumberChars(t) && Terminated(x) && s + x == t + y
    ensures |t| <= |s|
  {
    var a := s + x;
    assert forall i :: 0 <= i < |t| ==> a[i] == t[i];
    assert x != "" ==> a[|s|] == x[0];
  }

  lemma NumberPrefixFree(s: string, t: string, x: string, y: string)
    requires NumberChars(s) && NumberChars(t) && Terminated(x) && Terminated(y) && s + x == t + y
    ensures s == t && x == y
  {
    NumberEnds(s, t, x, y);
    NumberEnds(t, s, y, x);
    Split(s, t, x, y);
  }

  lemma Split(s: string, t: string, x: string, y: string)
    requires s + x == t + y && |s| == |t|
    ensures s == t && x == y
  {
    var a := s + x;
    assert s == a[..|s|] && t == a[..|t|] && x == a[|s|..] && y == a[|t|..];
  }

  // The same, for two texts behind a common separator.
  lemma Behind(sep: string, r: string, r': string, x: string, y: string)
    requires (sep + r) + x == (sep + r') + y
    ensures r + x == r' + y
  {
    assert (sep + r) + x == sep + (r + x);
    assert (sep + r') + y == sep + (r' + y);
    Split(sep, sep, r + x, r' + y);
  }

  // The first character of a printed value tells its kind.
  function Kind(v: Json): (c: char) {
    match v
    case JNull => 'n'
    case JBool(b) => if b then 't' else 'f'
    case JStr(_) => '"'
    case JArr(_) => '['
    case JObj(_) => '{'
    case _ => '0'
  }

  function KindOf(c: char): char {
    if c in "-0123456789IN" then '0' else c
  }

  lemma PrintHead(v: Json)
    ensures Print(v) != "" && KindOf(Print(v)[0]) == Kind(v) && Print(v)[0] !in ",]}"
  {
    if IsNumber(v) { NumberText(v); }
  }

  // Canonical JSON is a uniquely readable code.
  lemma {:induction false} PrintPrefixFree(v: Json, w: Json, x: string, y: string)
    requires Print(v) + x == Print(w) + y && Terminated(x) && Terminated(y)
    ensures v == w && x == y
    decreases v, 1, 0
  {
    PrintHead(v);
    PrintHead(w);
    var a := Print(v) + x;
    assert a[0] == Print(v)[0] == Print(w)[0];
    assert Kind(v) == Kind(w);
    if IsNumber(v) {
      NumberText(v);
      NumberText(w);
      NumberPrefixFree(Print(v), Print(w), x, y);
      NumberInjective(v, w);
    } else if v.JStr? {
      QuotePrefixFree(v.s, w.s, x, y);
    } else if v.JArr? {
      Behind("[", PrintItems(v.items, true), PrintItems(w.items, true), x, y);
      ItemsPrefixFree(v.items, w.items, true, x, y);
    } else if v.JObj? {
      var ks, ls := SortedKeys(v.fields.Keys), SortedKeys(w.fields.Keys);
      Behind("{", PrintFields(v, ks, true), PrintFields(w, ls, true), x, y);
      FieldsPrefixFree(v, ks, w, ls, true, x, y);
      SameFields(v.fields, w.fields);
    } else {
      Split(Print(v), Print(w), x, y);
    }
  }

  lemma SameFields(f: Dict, g: Dict)
    requires SortedKeys(f.Keys) == SortedKeys(g.Keys)
    requires forall k :: k in SortedKeys(f.Keys) ==> k in f && k in g && f[k] == g[k]
    ensures f == g
  {
    assert forall k :: k in f <==> k in SortedKeys(f.Keys);
    assert forall k :: k in g <==> k in SortedKeys(g.Keys);
  }

  lemma ItemsHead(items: seq<Json>, first: bool)
    ensures PrintItems(items, first) != ""
    ensures items == [] <==> PrintItems(items, first)[0] == ']'
    ensures !first || items == [] ==> PrintItems(items, first)[0] in ",]}"
  {
    if items != [] { PrintHead(items[0]); }
  }

  lemma ItemsUnfold(items: seq<Json>, first: bool, x: string)
    requires items != []
    ensures PrintItems(items, first) + x
         == (if first then "" else ",") + (Print(items[0]) + (PrintItems(items[1..], false) + x))
  {
    var sep, d, r := if first then "" else ",", Print(items[0]), PrintItems(items[1..], false);
    Associate(sep, d, r);
    Associate(sep, d + r, x);
    Associate(d, r, x);
  }

  lemma {:induction false} ItemsPrefixFree(a: seq<Json>, b: seq<Json>, first: bool, x: string, y: string)
    requires PrintItems(a, first) + x == PrintItems(b, first) + y
    ensures a == b && x == y
    decreases a, 1
  {
    ItemsHead(a, first);
    ItemsHead(b, first);
    var all := PrintItems(a, first) + x;
    assert all[0] == PrintItems(a, first)[0] == PrintItems(b, first)[0];
    if a == [] {
      Split("]", "]", x, y);
    } else {
      var p, q := PrintItems(a[1..], false) + x, PrintItems(b[1..], false) + y;
      ItemsUnfold(a, first, x);
      ItemsUnfold(b, first, y);
      var sep := if first then "" else ",";
      Split(sep, sep, Print(a[0]) + p, Print(b[0]) + q);
      ItemsHead(a[1..], false);
      ItemsHead(b[1..], false);
      PrintPrefixFree(a[0], b[0], p, q);
      ItemsPrefixFree(a[1..], b[1..], false, x, y);
      assert a == [a[0]] + a[1..] && b == [b[0]] + b[1..];
    }
  }

  lemma FieldsHead(v: Json, keys: seq<string>, first: bool)
    requires v.JObj? && forall k :: k in keys ==> k in v.fields
    ensures PrintFields(v, keys, first) != ""
    ensures keys == [] <==> PrintFields(v, keys, first)[0] == '}'
    ensures !first || keys == [] ==> PrintFields(v, keys, first)[0] in ",]}"
  {
  }

  lemma FieldsUnfold(v: Json, keys: seq<string>, first: bool, x: string)
    requires v.JObj? && (forall k :: k in keys ==> k in v.fields) && keys != []
    ensures PrintFields(v, keys, first) + x
         == (if first then "" else ",")
            + (Quote(keys[0]) + (":" + (Print(v.fields[keys[0]]) + (PrintFields(v, keys[1..], false) + x))))
  {
    var sep, q, d, r := if first then ""
        else ",", Quote(keys[0]), Print(v.fields[keys[0]]), PrintFields(v, keys[1..], false);
    Associate(((sep + q) + ":") + d, r, x);
    Associate((sep + q) + ":", d, r + x);
    Associate(sep + q, ":", d + (r + x));
    Associate(sep, q, ":" + (d + (r + x)));
  }

  lemma {:induction false} FieldsPrefixFree(v: Json, ks: seq<string>, w: Json, ls: seq<string>, first: bool,
      x: string, y: string)
    requires v.JObj? && forall k :: k in ks ==> k in v.fields
    requires w.JObj? && forall k :: k in ls ==> k in w.fields
    requires PrintFields(v, ks, first) + x == PrintFields(w, ls, first) + y
    ensures ks == ls && x == y
    ensures forall k :: k in ks ==> v.fields[k] == w.fields[k]
    decreases v, 0, |ks|
  {
    FieldsHead(v, ks, first);
    FieldsHead(w, ls, first);
    var all := PrintFields(v, ks, first) + x;
    assert all[0] == PrintFields(v, ks, first)[0] == PrintFields(w, ls, first)[0];
    if ks == [] {
      Split("}", "}", x, y);
    } else {
      var sep := if first then "" else ",";
      FieldsUnfold(v, ks, first, x);
      FieldsUnfold(w, ls, first, y);
      var p, q := PrintFields(v, ks[1..], false) + x, PrintFields(w, ls[1..], false) + y;
      var vv, ww := v.fields[ks[0]], w.fields[ls[0]];
      Split(sep, sep, Quote(ks[0]) + (":" + (Print(vv) + p)), Quote(ls[0]) + (":" + (Print(ww) + q)));
      QuotePrefixFree(ks[0], ls[0], ":" + (Print(vv) + p), ":" + (Print(ww) + q));
      Split(":", ":", Print(vv) + p, Print(ww) + q);
      FieldsHead(v, ks[1..], false);
      FieldsHead(w, ls[1..], false);
      PrintPrefixFree(vv, ww, p, q);
      FieldsPrefixFree(v, ks[1..], w, ls[1..], false, x, y);
      assert ks == [ks[0]] + ks[1..] && ls == [ls[0]] + ls[1..];
    }
  }

  // Two values with the same canonical form are the same value.
  lemma PrintInjective(v: Json, w: Json)
    requires Print(v) == Print(w)
    ensures v == w
  {
    assert Print(v) + "" == Print(w) + "";
    PrintPrefixFree(v, w, "", "");
  }

  // ---------------------------------------------------------------- character set

  predicate Printable(s: string) {
    forall i :: 0 <= i < |s| ==> ' ' <= s[i] <= '~'
  }

  lemma {:induction false} QuotePrintable(s: string)
    ensures Printable(EscAll(s)) && Printable(Quote(s))
  {
    if s != "" {
      EscShape(s[0]);
      QuotePrintable(s[1..]);
    }
  }

  // The canonical form is one non-empty line of printable ASCII.
  lemma {:induction false} PrintPrintable(v: Json)
    ensures Print(v) != "" && Printable(Print(v))
    decreases v, 1, 0
  {
    match v
    case JInt(_) => NumberText(v);
    case JFloat(_) => NumberText(v);
    case JStr(s) => QuotePrintable(s);
    case JArr(items) => ItemsPrintable(items, true);
    case JObj(fields) => FieldsPrintable(v, SortedKeys(fields.Keys), true);
    case _ =>
  }

  lemma {:induction false} ItemsPrintable(items: seq<Json>, first: bool)
    ensures Printable(PrintItems(items, first))
    decreases items, 1
  {
    if items != [] {
      PrintPrintable(items[0]);
      ItemsPrintable(items[1..], false);
    }
  }

  lemma {:induction false} FieldsPrintable(v: Json, keys: seq<string>, first: bool)
    requires v.JObj? && forall k :: k in keys ==> k in v.fields
    ensures Printable(PrintFields(v, keys, first))
    decreases v, 0, |keys|
  {
    if keys != [] {
      QuotePrintable(keys[0]);
      PrintPrintable(v.fields[keys[0]]);
      FieldsPrintable(v, keys[1..], false);
    }
  }
}
