/**
 * The JavaScript values the form engine reads and writes: field values in the
 * value environment, parsed JSON responses and request parameters, together
 * with the handful of JavaScript operators the engine relies on (truthiness,
 * `??`, property access, `Object.keys(..).length`, `String(..)`, `split`).
 */
module JsValues {
  import opened Wrappers

  /** A JSON-like JavaScript value. Numbers are integers in this model. */
  datatype Value =
    | Undefined
    | Null
    | Bool(b: bool)
    | Num(n: int)
    | Str(s: string)
    | Arr(items: seq<Value>)
    | Obj(props: map<string, Value>)

  /** JavaScript truthiness, the test behind `!v`, `v && ..` and `v || ..`. */
  predicate Truthy(v: Value) {
    match v
    case Undefined => false
    case Null => false
    case Bool(b) => b
    case Num(n) => n != 0
    case Str(s) => s != ""
    case Arr(_) => true
    case Obj(_) => true
  }

  /** `typeof v === "object" && v !== null`: arrays and plain objects. */
  predicate IsObject(v: Value) {
    v.Arr? || v.Obj?
  }

  /** `v === undefined || v === null`, the test of `??` and `?.`. */
  predicate IsNullish(v: Value) {
    v.Undefined? || v.Null?
  }

  /** `a ?? b` */
  function Coalesce(a: Value, b: Value): Value {
    if IsNullish(a) then b else a
  }

  /** `a || b` */
  function Or(a: Value, b: Value): Value {
    if Truthy(a) then a else b
  }

  /** `Object.keys(v).length` for an array or a plain object. */
  function KeyCount(v: Value): nat {
    match v
    case Arr(items) => |items|
    case Obj(m) => |m|
    case _ => 0
  }

  predicate IsDigit(c: char) {
    '0' <= c <= '9'
  }

  /** A property key that names an array element: decimal digits without a leading zero. */
  predicate IsArrayIndex(k: string) {
    && |k| > 0
    && (forall i :: 0 <= i < |k| ==> IsDigit(k[i]))
    && (k[0] == '0' ==> |k| == 1)
  }

  function DigitsValue(k: string): nat
    requires forall i :: 0 <= i < |k| ==> IsDigit(k[i])
  {
    if |k| == 0 then 0
    else
      assert IsDigit(k[|k| - 1]);
      DigitsValue(k[..|k| - 1]) * 10 + ((k[|k| - 1] as int) - ('0' as int))
  }

  function DigitChar(d: nat): char
    requires d < 10
  {
    (('0' as int) + d) as char
  }

  /** The decimal notation of a natural number, as `String(n)` gives it. */
  function NatToString(n: nat): string
  {
    if n < 10 then [DigitChar(n)] else NatToString(n / 10) + [DigitChar(n % 10)]
  }

  function IntToString(n: int): string {
    if n < 0 then "-" + NatToString(-n) else NatToString(n)
  }

  /** Decimal notation is an array index and reads back as the same number. */
  lemma {:induction false} NatToStringIsIndex(n: nat)
    ensures IsArrayIndex(NatToString(n))
    ensures DigitsValue(NatToString(n)) == n
  {
    if n >= 10 {
      NatToStringIsIndex(n / 10);
      var k := NatToString(n);
      assert k[..|k| - 1] == NatToString(n / 10);
    }
  }

  /** Distinct numbers have distinct decimal notations. */
  lemma NatToStringInjective()
    ensures forall i: nat, j: nat :: NatToString(i) == NatToString(j) ==> i == j
  {
    forall i: nat, j: nat | NatToString(i) == NatToString(j)
      ensures i == j
    {
      NatToStringIsIndex(i);
      NatToStringIsIndex(j);
    }
  }

  /**
   * `s.length`: JavaScript strings count UTF-16 code units, so a character beyond the
   * Basic Multilingual Plane (U+10000 and up) counts twice.
   */
  function Utf16Length(s: string): (r: nat)
    ensures r >= |s| && r <= 2 * |s|
    ensures r == 0 <==> s == ""
  {
    if |s| == 0 then 0 else (if s[0] as int >= 0x10000 then 2 else 1) + Utf16Length(s[1..])
  }

  /** Within the Basic Multilingual Plane the code-unit count is the character count. */
  lemma {:induction false} Utf16LengthOfBmp(s: string)
    requires forall i :: 0 <= i < |s| ==> s[i] as int < 0x10000
    ensures Utf16Length(s) == |s|
  {
    if |s| > 0 {
      Utf16LengthOfBmp(s[1..]);
    }
  }

  /** An emoji after a letter: two characters, three code units. */
  lemma AstralCharacterCountsTwice()
    ensures |"a\U{1F600}"| == 2 && Utf16Length("a\U{1F600}") == 3
  {
    assert "a\U{1F600}"[1..] == "\U{1F600}";
    assert "\U{1F600}"[1..] == "";
  }

  /**
   * Property access `v[key]` on a value that is neither `null` nor `undefined`.
   * Arrays and strings answer `length` and element indices; a plain object answers
   * its own properties. Inherited prototype members are not modelled. A string's
   * `length` counts UTF-16 code units; its indices are taken per character.
   */
  function Get(v: Value, key: string): Value {
    match v
    case Obj(m) => if key in m then m[key] else Undefined
    case Arr(items) =>
      if key == "length" then Num(|items|)
      else if IsArrayIndex(key) && DigitsValue(key) < |items| then items[DigitsValue(key)]
      else Undefined
    case Str(s) =>
      if key == "length" then Num(Utf16Length(s))
      else if IsArrayIndex(key) && DigitsValue(key) < |s| then Str([s[DigitsValue(key)]])
      else Undefined
    case _ => Undefined
  }

  /** Optional chaining `v?.[key]`. */
  function GetOpt(v: Value, key: string): Value {
    if IsNullish(v) then Undefined else Get(v, key)
  }

  /** `String(v)`, as `String.prototype.replace` applies it to a replacement value. */
  function ToDisplayString(v: Value): string
    decreases v
  {
    match v
    case Undefined => "undefined"
    case Null => "null"
    case Bool(b) => if b then "true" else "false"
    case Num(n) => IntToString(n)
    case Str(s) => s
    case Arr(items) =>
      JoinWith(seq(|items|, i requires 0 <= i < |items| =>
                 if IsNullish(items[i]) then "" else ToDisplayString(items[i])), ",")
    case Obj(_) => "[object Object]"
  }

  function JoinWith(parts: seq<string>, sep: string): string {
    if |parts| == 0 then ""
    else if |parts| == 1 then parts[0]
    else parts[0] + sep + JoinWith(parts[1..], sep)
  }

  /** `s.split(sep)` for a one-character separator. */
  function Split(s: string, sep: char): (parts: seq<string>)
    ensures |parts| >= 1
  {
    if |s| == 0 then [""]
    else if s[0] == sep then [""] + Split(s[1..], sep)
    else
      var rest := Split(s[1..], sep);
      [[s[0]] + rest[0]] + rest[1..]
  }

  /** Splitting loses nothing: joining the parts with the separator gives the text back. */
  lemma {:induction false} SplitJoin(s: string, sep: char)
    ensures JoinWith(Split(s, sep), [sep]) == s
    ensures forall i, j :: 0 <= i < |Split(s, sep)| && 0 <= j < |Split(s, sep)[i]| ==> Split(s, sep)[i][j] != sep
  {
    if |s| > 0 {
      SplitJoin(s[1..], sep);
      var rest := Split(s[1..], sep);
      if s[0] == sep {
        assert Split(s, sep) == [""] + rest;
      } else {
        var parts := Split(s, sep);
        assert parts == [[s[0]] + rest[0]] + rest[1..];
        if |rest| == 1 {
          assert JoinWith(parts, [sep]) == [s[0]] + rest[0];
        } else {
          assert JoinWith(rest, [sep]) == rest[0] + [sep] + JoinWith(rest[1..], [sep]);
          assert JoinWith(parts, [sep]) == [s[0]] + rest[0] + [sep] + JoinWith(rest[1..], [sep]);
        }
        forall i, j | 0 <= i < |parts| && 0 <= j < |parts[i]|
          ensures parts[i][j] != sep
        {
          if i == 0 {
            if j > 0 { assert parts[0][j] == rest[0][j - 1]; }
          } else {
            assert parts[i] == rest[i];
          }
        }
      }
    }
  }

  /** The value environment: field id to held value. */
  type Env = map<string, Value>

  /** `values[id]` */
  function Lookup(env: Env, id: string): Value {
    if id in env then env[id] else Undefined
  }

  /** The entries of a JavaScript object whose key order matters. */
  predicate DistinctKeys(e: seq<(string, Value)>) {
    forall i, j :: 0 <= i < j < |e| ==> e[i].0 != e[j].0
  }

  type Entries = e: seq<(string, Value)> | DistinctKeys(e) witness []

  function EntryKeys(e: seq<(string, Value)>): (ks: seq<string>)
    ensures |ks| == |e|
    ensures forall i :: 0 <= i < |e| ==> ks[i] == e[i].0
  {
    seq(|e|, i requires 0 <= i < |e| => e[i].0)
  }
}
