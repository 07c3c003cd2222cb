/** JavaScript values and the few built-in string and number operations the
    storefront relies on: JSON values as `JSON.parse` delivers them, truthiness,
    `String.prototype.trim() !== ''`, ASCII `toLowerCase`, `includes`, a model of
    `parseInt`, and the decimal keys under which `Object.keys` lists the elements
    of an array or a string. */
module Js {

  datatype Option<+T> = None | Some(value: T)

  /** A parsed JSON value. Numbers are integers (money and quantities are whole
      rupees and pieces here). An object lists its members in the order in which
      `Object.keys` enumerates them. */
  datatype Json =
    | JNull
    | JBool(b: bool)
    | JNum(n: int)
    | JStr(s: string)
    | JArr(elems: seq<Json>)
    | JObj(members: seq<Member>)

  datatype Member = Member(key: string, value: Json)

  /** Member keys are pairwise distinct, as in any object `JSON.parse` builds. */
  predicate DistinctMembers(ms: seq<Member>) {
    forall i, j :: 0 <= i < j < |ms| ==> ms[i].key != ms[j].key
  }

  /** Every object in the value, at any depth, has distinct member keys. */
  predicate WellFormed(j: Json)
    decreases j
  {
    match j
    case JArr(es) => forall i :: 0 <= i < |es| ==> WellFormed(es[i])
    case JObj(ms) => DistinctMembers(ms) && forall i :: 0 <= i < |ms| ==> WellFormed(ms[i].value)
    case _ => true
  }

  /** JavaScript truthiness of a JSON value. */
  predicate Truthy(j: Json) {
    match j
    case JNull => false
    case JBool(b) => b
    case JNum(n) => n != 0
    case JStr(s) => s != ""
    case _ => true
  }

  /** Truthiness of a property that may be absent (`undefined` is falsy). */
  predicate TruthyOpt(v: Option<Json>) {
    v.Some? && Truthy(v.value)
  }

  /** The value of property `key`, or None for `undefined`. */
  function Get(ms: seq<Member>, key: string): (r: Option<Json>)
    ensures r.Some? <==> exists i :: 0 <= i < |ms| && ms[i].key == key
    ensures r.Some? ==> exists i :: 0 <= i < |ms| && ms[i] == Member(key, r.value)
  {
    if ms == [] then None
    else if ms[0].key == key then Some(ms[0].value)
    else Get(ms[1..], key)
  }

  /** Property `key` of a value; primitives and arrays have none of the
      properties looked up in this model. */
  function Prop(j: Json, key: string): Option<Json> {
    if j.JObj? then Get(j.members, key) else None
  }

  // ---- strings -------------------------------------------------------------

  /** The characters `String.prototype.trim` removes (WhiteSpace and
      LineTerminator of ECMAScript). */
  predicate IsSpace(c: char) {
    c == ' ' || c == '\t' || c == '\n' || c == '\r' || c == '\U{000B}' || c == '\U{000C}'
    || c == '\U{00A0}' || c == '\U{1680}' || ('\U{2000}' <= c <= '\U{200A}')
    || c == '\U{2028}' || c == '\U{2029}' || c == '\U{202F}' || c == '\U{205F}'
    || c == '\U{3000}' || c == '\U{FEFF}'
  }

  /** `s.trim() === ''`. */
  predicate IsBlank(s: string) {
    forall i :: 0 <= i < |s| ==> IsSpace(s[i])
  }

  function LowerChar(c: char): char {
    if 'A' <= c <= 'Z' then (c as int + 32) as char else c
  }

  /** `s.toLowerCase()` on the ASCII letters. */
  function ToLower(s: string): (r: string)
    ensures |r| == |s|
    ensures forall i :: 0 <= i < |s| ==> r[i] == LowerChar(s[i])
  {
    if s == [] then [] else [LowerChar(s[0])] + ToLower(s[1..])
  }

  /** `hay.includes(needle)`. */
  predicate Includes(hay: string, needle: string) {
    exists i :: 0 <= i <= |hay| && needle <= hay[i..]
  }

  /** `s.length`: a JavaScript string counts UTF-16 code units, so a character
      outside the Basic Multilingual Plane counts twice. */
  function Utf16Length(s: string): (n: nat)
    ensures |s| <= n <= 2 * |s|
    ensures (forall i :: 0 <= i < |s| ==> (s[i] as int) < 0x1_0000) ==> n == |s|
  {
    if s == [] then 0
    else
      assert forall i :: 0 <= i < |s[1..]| ==> s[1..][i] == s[i + 1];
      (if (s[0] as int) < 0x1_0000 then 1 else 2) + Utf16Length(s[1..])
  }

  // ---- decimal numerals ----------------------------------------------------

  predicate IsDigit(c: char) { '0' <= c <= '9' }

  function DigitValue(c: char): nat
    requires IsDigit(c)
  {
    c as int - '0' as int
  }

  function DigitChar(d: nat): (c: char)
    requires d < 10
    ensures IsDigit(c) && DigitValue(c) == d
  {
    ('0' as int + d) as char
  }

  predicate AllDigits(s: string) {
    forall i :: 0 <= i < |s| ==> IsDigit(s[i])
  }

  /** The value of a string of decimal digits. */
  function DecimalValue(s: string): nat
    requires AllDigits(s)
  {
    if s == [] then 0 else DecimalValue(s[..|s| - 1]) * 10 + DigitValue(s[|s| - 1])
  }

  /** `String(n)` for a natural number. */
  function NatToString(n: nat): (s: string)
    ensures AllDigits(s) && |s| > 0
    ensures n >= 10 ==> s[0] != '0'
  {
    if n < 10 then [DigitChar(n)] else NatToString(n / 10) + [DigitChar(n % 10)]
  }

  lemma {:induction false} DecimalOfNatToString(n: nat)
    ensures DecimalValue(NatToString(n)) == n
  {
    if n >= 10 {
      var s := NatToString(n);
      assert s[..|s| - 1] == NatToString(n / 10);
      DecimalOfNatToString(n / 10);
    }
  }

  /** Distinct indexes are listed under distinct keys. */
  lemma NatToStringInjective(m: nat, n: nat)
    requires NatToString(m) == NatToString(n)
    ensures m == n
  {
    DecimalOfNatToString(m);
    DecimalOfNatToString(n);
  }

  /** `Object.keys(v).map(k => [k, v[k]])`: an object's own members, an array's
      or a string's elements under their decimal indexes, nothing for the other
      primitives. */
  function OwnEntries(j: Json): (r: seq<Member>)
    ensures j.JObj? ==> r == j.members
    ensures j.JArr? ==> |r| == |j.elems| && forall i :: 0 <= i < |r| ==> r[i] == Member(NatToString(i), j.elems[i])
  {
    match j
    case JObj(ms) => ms
    case JArr(es) => seq(|es|, i requires 0 <= i < |es| => Member(NatToString(i), es[i]))
    case JStr(s) => seq(|s|, i requires 0 <= i < |s| => Member(NatToString(i), JStr([s[i]])))
    case _ => []
  }

  lemma OwnEntriesDistinct(j: Json)
    requires WellFormed(j)
    ensures DistinctMembers(OwnEntries(j))
  {
    var r := OwnEntries(j);
    forall a, b | 0 <= a < b < |r| ensures r[a].key != r[b].key {
      if r[a].key == r[b].key && !j.JObj? {
        NatToStringInjective(a, b);
      }
    }
  }

  // ---- parseInt ------------------------------------------------------------

  function DropSpaces(s: string): (r: string)
    ensures |r| <= |s| && r == s[|s| - |r|..]
    ensures r == [] || !IsSpace(r[0])
  {
    if s != [] && IsSpace(s[0]) then DropSpaces(s[1..]) else s
  }

  /** The longest prefix of `s` made of decimal digits. */
  function DigitPrefix(s: string): (r: string)
    ensures AllDigits(r) && r <= s
    ensures |r| < |s| ==> !IsDigit(s[|r|])
  {
    if s != [] && IsDigit(s[0]) then [s[0]] + DigitPrefix(s[1..]) else []
  }

  /** `parseInt(s)` with radix 10: leading white space, an optional sign, then
      the longest run of decimal digits; NaN (None) when there is no digit. */
  function ParseIntString(s: string): Option<int> {
    var t := DropSpaces(s);
    var neg := t != [] && t[0] == '-';
    var body := if t != [] && (t[0] == '-' || t[0] == '+') then t[1..] else t;
    var ds := DigitPrefix(body);
    if ds == [] then None
    else
      var v: int := DecimalValue(ds);
      Some(if neg then -v else v)
  }

  lemma {:induction false} DigitPrefixAll(s: string)
    requires AllDigits(s)
    ensures DigitPrefix(s) == s
  {
    if s != [] { DigitPrefixAll(s[1..]); }
  }

  /** A plain numeral parses to its value. */
  lemma ParseIntNumeral(s: string)
    requires AllDigits(s) && s != []
    ensures ParseIntString(s) == Some(DecimalValue(s))
  {
    assert IsDigit(s[0]) && !IsSpace(s[0]) && s[0] != '-' && s[0] != '+';
    assert DropSpaces(s) == s;
    DigitPrefixAll(s);
  }

  /** `parseInt(v)` of a property value: a number is itself, a string is read
      by `ParseIntString`, everything else (undefined, null, booleans, objects)
      is NaN. */
  function ParseInt(v: Option<Json>): (r: Option<int>)
    ensures v == Some(JNull) || v == None ==> r == None
    ensures v.Some? && v.value.JNum? ==> r == Some(v.value.n)
  {
    match v
    case Some(JNum(n)) => Some(n)
    case Some(JStr(s)) => ParseIntString(s)
    case _ => None
  }
}
