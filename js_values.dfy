/**
 * JavaScript values as seen by the dashboard's front end (frontend/src/App.jsx):
 * the cells of a result row, `typeof`, property lookup `row[key]`, and `Number(v)`.
 * Numbers are modelled as integers; `Number(v)` yields None where JavaScript yields NaN.
 */
module JsValues {
  import opened Wrappers

  datatype JsValue =
    | Str(s: string)
    | Num(n: int)
    | Bool(b: bool)
    | Null
    | Obj(fields: seq<(string, JsValue)>)
    | Arr(elems: seq<JsValue>)
    | Undefined

  /** A result row: an object's own properties, in `Object.keys` order. */
  type Row = seq<(string, JsValue)>

  /** JavaScript's `typeof` operator. */
  function TypeOf(v: JsValue): (t: string)
    ensures t == "object" <==> v.Null? || v.Obj? || v.Arr?
    ensures t == "string" <==> v.Str?
    ensures t == "number" <==> v.Num?
  {
    match v
    case Str(_) => "string"
    case Num(_) => "number"
    case Bool(_) => "boolean"
    case Null => "object"
    case Obj(_) => "object"
    case Arr(_) => "object"
    case Undefined => "undefined"
  }

  /** `Object.keys(row)`. */
  function Keys(row: Row): seq<string> {
    seq(|row|, i requires 0 <= i < |row| => row[i].0)
  }

  /** A JavaScript object never holds the same key twice. */
  predicate DistinctKeys(row: Row) {
    forall i, j :: 0 <= i < j < |row| ==> row[i].0 != row[j].0
  }

  /** Property access `row[k]`: the value stored under `k`, or undefined when there is none. */
  function Get(row: Row, k: string): (v: JsValue)
    ensures k !in Keys(row) ==> v == Undefined
    ensures v != Undefined ==> exists i :: 0 <= i < |row| && row[i] == (k, v)
  {
    if |row| == 0 then Undefined
    else if row[0].0 == k then assert Keys(row)[0] == k; row[0].1
    else
      var v := Get(row[1..], k);
      assert k !in Keys(row) ==> k !in Keys(row[1..]) by {
        if k in Keys(row[1..]) {
          var i :| 0 <= i < |row[1..]| && Keys(row[1..])[i] == k;
          assert Keys(row)[i + 1] == k;
        }
      }
      assert v != Undefined ==> exists i :: 0 <= i < |row| && row[i] == (k, v) by {
        if v != Undefined {
          var i :| 0 <= i < |row[1..]| && row[1..][i] == (k, v);
          assert row[i + 1] == (k, v);
        }
      }
      v
  }

  /** In a row with distinct keys, looking a key up finds the value stored beside it. */
  lemma {:induction false} GetStored(row: Row, i: int)
    requires DistinctKeys(row)
    requires 0 <= i < |row|
    ensures Get(row, row[i].0) == row[i].1
  {
    if i > 0 {
      assert row[0].0 != row[i].0;
      assert DistinctKeys(row[1..]) by {
        forall a, b | 0 <= a < b < |row[1..]| ensures row[1..][a].0 != row[1..][b].0 {
          assert row[a + 1].0 != row[b + 1].0;
        }
      }
      GetStored(row[1..], i - 1);
    }
  }

  /** JavaScript's WhiteSpace and LineTerminator characters, which Number() trims. */
  predicate IsJsSpace(c: char) {
    c == '\t' || c == '\n' || c == '\U{B}' || c == '\U{C}' || c == '\r' || c == ' '
    || c == '\U{A0}' || c == '\U{1680}' || ('\U{2000}' <= c <= '\U{200A}')
    || c == '\U{2028}' || c == '\U{2029}' || c == '\U{202F}' || c == '\U{205F}'
    || c == '\U{3000}' || c == '\U{FEFF}'
  }

  function TrimJsStart(s: string): (t: string)
    ensures |t| <= |s| && t == s[|s| - |t|..]
    ensures forall k :: 0 <= k < |s| - |t| ==> IsJsSpace(s[k])
    ensures t != [] ==> !IsJsSpace(t[0])
  {
    if |s| > 0 && IsJsSpace(s[0]) then TrimJsStart(s[1..]) else s
  }

  function TrimJsEnd(s: string): (t: string)
    ensures |t| <= |s| && t == s[..|t|]
    ensures forall k :: |t| <= k < |s| ==> IsJsSpace(s[k])
    ensures t != [] ==> !IsJsSpace(t[|t| - 1])
  {
    if |s| > 0 && IsJsSpace(s[|s| - 1]) then TrimJsEnd(s[..|s| - 1]) else s
  }

  predicate IsDigit(c: char) { '0' <= c <= '9' }

  predicate AllDigits(s: string) { forall i :: 0 <= i < |s| ==> IsDigit(s[i]) }

  /** The value of a string of decimal digits. */
  function DigitsValue(s: string): (n: nat)
    requires AllDigits(s)
  {
    if |s| == 0 then 0
    else DigitsValue(s[..|s| - 1]) * 10 + (s[|s| - 1] as int - '0' as int)
  }

  /** The value of an already trimmed numeral: the empty string is 0, and an optionally
      signed run of decimal digits is its value; anything else is NaN. */
  function NumeralValue(t: string): Option<int> {
    if t == "" then Some(0)
    else if (t[0] == '+' || t[0] == '-') && |t| > 1 && AllDigits(t[1..]) then
      var magnitude: int := DigitsValue(t[1..]);
      Some(if t[0] == '-' then -magnitude else magnitude)
    else if AllDigits(t) then Some(DigitsValue(t))
    else None
  }

  /** `Number(s)` for a string: surrounding whitespace is trimmed first. */
  function StringToNumber(s: string): Option<int> {
    NumeralValue(TrimJsEnd(TrimJsStart(s)))
  }

  /** `Number(v)`. An array converts through its string form: [] is "", [x] is String(x)
      (with null and undefined as ""), and two or more elements hold a comma, so NaN. */
  function ToNumber(v: JsValue): (r: Option<int>)
    ensures v.Num? ==> r == Some(v.n)
    ensures v.Bool? ==> r == Some(if v.b then 1 else 0)
    ensures v.Null? || v == Arr([]) ==> r == Some(0)
    ensures v.Undefined? || v.Obj? ==> r.None?
    ensures v.Arr? && |v.elems| >= 2 ==> r.None?
    ensures v.Str? ==> r == StringToNumber(v.s)
  {
    match v
    case Num(n) => Some(n)
    case Bool(b) => Some(if b then 1 else 0)
    case Null => Some(0)
    case Undefined => None
    case Str(s) => StringToNumber(s)
    case Obj(_) => None
    case Arr(es) =>
      if |es| == 0 then Some(0)
      else if |es| > 1 then None
      else
        match es[0]
        case Bool(_) => None
        case Null => Some(0)
        case Undefined => Some(0)
        case _ => ToNumber(es[0])
  }

  /** Leading JavaScript whitespace before a non-whitespace character is trimmed away. */
  lemma {:induction false} TrimJsStartPadded(pre: string, x: string)
    requires forall k :: 0 <= k < |pre| ==> IsJsSpace(pre[k])
    requires x != [] && !IsJsSpace(x[0])
    ensures TrimJsStart(pre + x) == x
  {
    if |pre| > 0 {
      assert (pre + x)[1..] == pre[1..] + x;
      TrimJsStartPadded(pre[1..], x);
    } else {
      assert pre + x == x;
    }
  }

  /** Trailing JavaScript whitespace after a non-whitespace character is trimmed away. */
  lemma {:induction false} TrimJsEndPadded(x: string, post: string)
    requires forall k :: 0 <= k < |post| ==> IsJsSpace(post[k])
    requires x != [] && !IsJsSpace(x[|x| - 1])
    ensures TrimJsEnd(x + post) == x
  {
    if |post| > 0 {
      assert (x + post)[..|x + post| - 1] == x + post[..|post| - 1];
      TrimJsEndPadded(x, post[..|post| - 1]);
    } else {
      assert x + post == x;
    }
  }

  /** Trimming removes exactly the whitespace padding around a string that starts and
      ends with a non-whitespace character. */
  lemma TrimPadded(pre: string, x: string, post: string)
    requires forall k :: 0 <= k < |pre| ==> IsJsSpace(pre[k])
    requires forall k :: 0 <= k < |post| ==> IsJsSpace(post[k])
    requires x != [] && !IsJsSpace(x[0]) && !IsJsSpace(x[|x| - 1])
    ensures TrimJsEnd(TrimJsStart(pre + x + post)) == x
  {
    assert pre + x + post == pre + (x + post);
    assert (x + post)[0] == x[0];
    TrimJsStartPadded(pre, x + post);
    TrimJsEndPadded(x, post);
  }

  /** `Number(s)` of decimal digits, optionally signed and padded with whitespace, is
      their value. */
  lemma NumberOfDigits(pre: string, sign: string, digits: string, post: string)
    requires forall k :: 0 <= k < |pre| ==> IsJsSpace(pre[k])
    requires forall k :: 0 <= k < |post| ==> IsJsSpace(post[k])
    requires sign == "" || sign == "+" || sign == "-"
    requires digits != [] && AllDigits(digits)
    ensures StringToNumber(pre + sign + digits + post)
      == Some(if sign == "-" then -(DigitsValue(digits) as int) else DigitsValue(digits))
  {
    var x := sign + digits;
    assert pre + sign + digits + post == pre + x + post;
    assert x[|x| - 1] == digits[|digits| - 1];
    assert IsDigit(x[|x| - 1]);
    assert x[0] == '+' || x[0] == '-' || IsDigit(x[0]);
    TrimPadded(pre, x, post);
    SignedNumeral(sign, digits);
  }

  lemma SignedNumeral(sign: string, digits: string)
    requires sign == "" || sign == "+" || sign == "-"
    requires digits != [] && AllDigits(digits)
    ensures NumeralValue(sign + digits)
      == Some(if sign == "-" then -(DigitsValue(digits) as int) else DigitsValue(digits))
  {
    var x := sign + digits;
    if sign != "" {
      assert x[1..] == digits;
    } else {
      assert x == digits;
    }
  }

  /** A string of JavaScript whitespace only, the empty string included, converts to 0. */
  lemma NumberOfSpaces(s: string)
    requires forall k :: 0 <= k < |s| ==> IsJsSpace(s[k])
    ensures StringToNumber(s) == Some(0)
  {
  }

  /** Once whitespace is trimmed, a lone sign, or a character that is neither a digit nor
      a leading sign, makes `Number(s)` NaN. */
  lemma NumberNaN(s: string, k: nat)
    requires var t := TrimJsEnd(TrimJsStart(s));
      || t == "+" || t == "-"
      || (k < |t| && !IsDigit(t[k]) && !(k == 0 && (t[0] == '+' || t[0] == '-')))
    ensures StringToNumber(s).None?
  {
    NumeralNaN(TrimJsEnd(TrimJsStart(s)), k);
  }

  lemma NumeralNaN(t: string, k: nat)
    requires
      || t == "+" || t == "-"
      || (k < |t| && !IsDigit(t[k]) && !(k == 0 && (t[0] == '+' || t[0] == '-')))
    ensures NumeralValue(t).None?
  {
    if k < |t| && k > 0 {
      assert t[1..][k - 1] == t[k];
    }
  }
}
