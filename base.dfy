/**
 * Values shared by every part of the model: optional values, MongoDB
 * ObjectIds and their string form, and the JavaScript string tests the
 * handlers apply to request fields (`!x`, `!x?.trim()`, `===`).
 */
module Base {

  datatype Option<+T> = None | Some(value: T)

  /** A MongoDB ObjectId. Two ids are the same id exactly when they are equal values. */
  datatype Id = Id(n: nat)

  /** One lower-case hexadecimal digit. */
  function HexDigit(d: nat): (c: char)
    requires d < 16
  {
    if d < 10 then (48 + d) as char else (87 + d) as char
  }

  /** The hexadecimal numeral of `n`, without leading zeros. */
  function Hex(n: nat): (r: string)
    ensures |r| >= 1
    ensures |r| == 1 <==> n < 16
    decreases n
  {
    if n < 16 then [HexDigit(n)] else Hex(n / 16) + [HexDigit(n % 16)]
  }

  /** `id.toString()`: an ObjectId printed as hexadecimal. The driver prints a fixed width of
      24 lower-case digits with leading zeros; this numeral has no padding, and only what the
      handlers rely on is kept: distinct ids print differently. */
  function IdString(id: Id): string
  {
    Hex(id.n)
  }

  lemma {:induction false} HexInjective(a: nat, b: nat)
    requires Hex(a) == Hex(b)
    ensures a == b
    decreases a
  {
    var ha, hb := Hex(a), Hex(b);
    if a < 16 {
      assert b < 16;
      assert [HexDigit(a)] == [HexDigit(b)];
    } else {
      assert b >= 16;
      assert ha == Hex(a / 16) + [HexDigit(a % 16)];
      assert hb == Hex(b / 16) + [HexDigit(b % 16)];
      assert ha[|ha| - 1] == HexDigit(a % 16) && hb[|hb| - 1] == HexDigit(b % 16);
      assert a % 16 == b % 16;
      assert Hex(a / 16) == ha[..|ha| - 1] == hb[..|hb| - 1] == Hex(b / 16);
      HexInjective(a / 16, b / 16);
    }
  }

  /** Comparing two ids through their strings, as `a.toString() === b.toString()` does,
      is the same as comparing the ids. */
  lemma IdStringInjective(x: Id, y: Id)
    ensures IdString(x) == IdString(y) <==> x == y
  {
    if IdString(x) == IdString(y) {
      HexInjective(x.n, y.n);
    }
  }

  /** A JavaScript value on the right of a `===` whose left side is a string. */
  datatype JsValue = JsString(s: string) | JsObjectId(id: Id) | JsUndefined

  /** `s === v` for a string `s`: strict equality never converts, so only a string can equal a string. */
  predicate StrictEqualsString(s: string, v: JsValue)
  {
    match v
    case JsString(t) => s == t
    case _ => false
  }

  /** The characters `String.prototype.trim` removes: ECMAScript WhiteSpace and LineTerminator. */
  predicate IsJsWhitespace(c: char)
  {
    || c == ' ' || c == '\t' || c == '\n' || c == '\r' || c == '\U{B}' || c == '\U{C}'
    || c == '\U{A0}' || c == '\U{1680}' || ('\U{2000}' <= c <= '\U{200A}')
    || c == '\U{2028}' || c == '\U{2029}' || c == '\U{202F}' || c == '\U{205F}'
    || c == '\U{3000}' || c == '\U{FEFF}'
  }

  predicate AllWhitespace(s: string)
  {
    forall i :: 0 <= i < |s| ==> IsJsWhitespace(s[i])
  }

  function TrimStart(s: string): (r: string)
    ensures |r| <= |s| && r == s[|s| - |r|..]
    ensures r == [] || !IsJsWhitespace(r[0])
    ensures r == [] <==> AllWhitespace(s)
  {
    if s != [] && IsJsWhitespace(s[0]) then
      var r := TrimStart(s[1..]);
      assert AllWhitespace(s[1..]) ==> AllWhitespace(s) by {
        if AllWhitespace(s[1..]) {
          forall i | 0 <= i < |s| ensures IsJsWhitespace(s[i]) {
            if i > 0 { assert s[i] == s[1..][i - 1]; }
          }
        }
      }
      r
    else
      s
  }

  function TrimEnd(s: string): (r: string)
    ensures |r| <= |s| && r == s[..|r|]
    ensures r == [] || !IsJsWhitespace(r[|r| - 1])
    ensures r == [] <==> AllWhitespace(s)
  {
    if s != [] && IsJsWhitespace(s[|s| - 1]) then
      var r := TrimEnd(s[..|s| - 1]);
      assert AllWhitespace(s[..|s| - 1]) ==> AllWhitespace(s) by {
        if AllWhitespace(s[..|s| - 1]) {
          forall i | 0 <= i < |s| ensures IsJsWhitespace(s[i]) {
            if i < |s| - 1 { assert s[i] == s[..|s| - 1][i]; }
          }
        }
      }
      r
    else
      s
  }

  /** `s.trim()`. */
  function Trim(s: string): (r: string)
    ensures r == [] || (!IsJsWhitespace(r[0]) && !IsJsWhitespace(r[|r| - 1]))
  {
    TrimEnd(TrimStart(s))
  }

  /** `trim()` yields the empty string exactly when every character is whitespace. */
  lemma TrimEmptyIffAllWhitespace(s: string)
    ensures Trim(s) == [] <==> AllWhitespace(s)
  {
    var t := TrimStart(s);
    if !AllWhitespace(s) {
      assert !AllWhitespace(t);
    }
  }

  /** `!v` for a request field that is a string or missing: missing and the empty string are falsy. */
  predicate Falsy(v: Option<string>)
  {
    v.None? || v.value == ""
  }

  /** `!v?.trim()`: missing, or nothing but whitespace (`BlankIsTrimEmpty`). */
  predicate Blank(v: Option<string>)
  {
    v.None? || AllWhitespace(v.value)
  }

  /** `Blank` is `!v?.trim()`: the value is missing or trims to the empty string. */
  lemma BlankIsTrimEmpty(v: Option<string>)
    ensures Blank(v) <==> v.None? || Trim(v.value) == ""
  {
    if v.Some? {
      TrimEmptyIffAllWhitespace(v.value);
    }
  }
}
