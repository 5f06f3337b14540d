/**
  The parts of JavaScript's `String` the components rely on: `trim` (with the
  ECMAScript white-space set), `toLowerCase` (restricted to ASCII letters),
  `includes`, `startsWith`, `replace` with a one-character pattern, and the
  decimal rendering of an integer (`n.toString()` and template literals).
 */
module JsText {
  import opened Base

  /** ECMAScript WhiteSpace and LineTerminator code points (what `trim` and `\s` match). */
  predicate IsWhitespace(c: char)
  {
    var n := c as int;
    n == 0x09 || n == 0x0A || n == 0x0B || n == 0x0C || n == 0x0D || n == 0x20 ||
    n == 0xA0 || n == 0x1680 || (0x2000 <= n <= 0x200A) || n == 0x2028 || n == 0x2029 ||
    n == 0x202F || n == 0x205F || n == 0x3000 || n == 0xFEFF
  }

  predicate AllWhitespace(s: string)
  {
    forall i :: 0 <= i < |s| ==> IsWhitespace(s[i])
  }

  /** Index of the first non-white-space character at or after `i` (or |s|). */
  function LeadingEnd(s: string, i: nat): (k: nat)
    requires i <= |s|
    ensures i <= k <= |s|
    ensures forall j :: i <= j < k ==> IsWhitespace(s[j])
    ensures k < |s| ==> !IsWhitespace(s[k])
    decreases |s| - i
  {
    if i < |s| && IsWhitespace(s[i]) then LeadingEnd(s, i + 1) else i
  }

  /** One past the last non-white-space character before `j` (or 0). */
  function TrailingStart(s: string, j: nat): (k: nat)
    requires j <= |s|
    ensures k <= j
    ensures forall m :: k <= m < j ==> IsWhitespace(s[m])
    ensures k > 0 ==> !IsWhitespace(s[k - 1])
    decreases j
  {
    if j > 0 && IsWhitespace(s[j - 1]) then TrailingStart(s, j - 1) else j
  }

  /**
    `String.prototype.trim`: white space removed from both ends. Its
    properties are stated by `TrimSpec` and `TrimSplits`, so that the many
    callers that only pass the result along do not carry them.
   */
  function Trim(s: string): (r: string)
    ensures |r| <= |s|
  {
    var a := LeadingEnd(s, 0);
    var b := TrailingStart(s, |s|);
    if a < b then s[a..b] else ""
  }

  /** The trimmed string has no white space at either end, and is empty exactly for blank input. */
  lemma TrimSpec(s: string)
    ensures var r := Trim(s);
      && (|r| == 0 || (!IsWhitespace(r[0]) && !IsWhitespace(r[|r| - 1])))
      && (r == "" <==> AllWhitespace(s))
  {
    var a := LeadingEnd(s, 0);
    var b := TrailingStart(s, |s|);
    if a >= b {
      forall m | 0 <= m < |s| ensures IsWhitespace(s[m]) {
        assert m < a || b <= m;
      }
    }
  }

  /** Trim drops exactly a white-space prefix and a white-space suffix. */
  lemma TrimSplits(s: string)
    ensures exists a, b ::
              0 <= a <= b <= |s| && Trim(s) == s[a..b] && AllWhitespace(s[..a]) && AllWhitespace(s[b..])
  {
    var a := LeadingEnd(s, 0);
    var b := TrailingStart(s, |s|);
    if a < b {
      assert Trim(s) == s[a..b] && AllWhitespace(s[..a]) && AllWhitespace(s[b..]);
    } else {
      assert Trim(s) == s[0..0] && AllWhitespace(s[..0]) && AllWhitespace(s[0..]);
    }
  }

  /** Trim finds no more white space to remove in a trimmed string. */
  lemma TrimIdempotent(s: string)
    ensures Trim(Trim(s)) == Trim(s)
  {
    var t := Trim(s);
    assert LeadingEnd(t, 0) == 0 && TrailingStart(t, |t|) == |t|;
    assert t[0..|t|] == t;
  }

  /** A string without white space is its own trim. */
  lemma TrimNoWhitespace(s: string)
    requires forall i :: 0 <= i < |s| ==> !IsWhitespace(s[i])
    ensures Trim(s) == s
  {
    assert LeadingEnd(s, 0) == 0 && TrailingStart(s, |s|) == |s|;
    assert s[0..|s|] == s;
  }

  function LowerChar(c: char): char
  {
    if 'A' <= c <= 'Z' then (c as int + 32) as char else c
  }

  /** `toLowerCase`, restricted to the ASCII letters A-Z. */
  function Lower(s: string): (r: string)
    ensures |r| == |s|
    ensures forall i :: 0 <= i < |s| ==> r[i] == LowerChar(s[i])
  {
    seq(|s|, i requires 0 <= i < |s| => LowerChar(s[i]))
  }

  /** `s || null` for an optional string: an absent or empty string becomes `null`. */
  function OrNull(s: Option<string>): (r: Option<string>)
    ensures r.None? <==> s.None? || s.value == ""
    ensures r.Some? ==> r == s
  {
    if s.None? || s.value == "" then None else s
  }

  /** `s.startsWith(p)`. */
  predicate StartsWith(s: string, p: string)
  {
    p <= s
  }

  /** `s.includes(sub)`: `sub` occurs at some offset of `s`. */
  predicate Includes(s: string, sub: string)
    decreases |s|
  {
    sub <= s || (|s| > 0 && Includes(s[1..], sub))
  }

  /** The empty string occurs in every string. */
  lemma IncludesEmpty(s: string)
    ensures Includes(s, "")
  {
  }

  /** Index of the first `c` in `s`, or |s| when there is none. */
  function FirstIndex(s: string, c: char): (k: nat)
    ensures k <= |s|
    ensures forall i :: 0 <= i < k ==> s[i] != c
    ensures k < |s| ==> s[k] == c
    decreases |s|
  {
    if |s| == 0 then 0 else if s[0] == c then 0 else 1 + FirstIndex(s[1..], c)
  }

  /** `s.replace(from, to)` with one-character strings: only the first occurrence is replaced. */
  function ReplaceFirst(s: string, from: char, to: char): (r: string)
    ensures |r| == |s|
  {
    var k := FirstIndex(s, from);
    if k == |s| then s else s[k := to]
  }

  /** Exactly the first `from` is rewritten; every other position is untouched. */
  lemma ReplaceFirstSpec(s: string, from: char, to: char)
    ensures var r := ReplaceFirst(s, from, to);
      (from !in s ==> r == s) &&
      (from in s ==>
        var k := FirstIndex(s, from);
        r[k] == to && (forall i :: 0 <= i < |s| && i != k ==> r[i] == s[i]) &&
        (forall i :: 0 <= i < k ==> s[i] != from))
  {
    var k := FirstIndex(s, from);
    if from in s {
      var j :| 0 <= j < |s| && s[j] == from;
      assert k <= j;
    }
  }

  function DigitChar(d: nat): char
    requires d < 10
  {
    ('0' as int + d) as char
  }

  predicate IsDigit(c: char)
  {
    '0' <= c <= '9'
  }

  /** Decimal digits of a natural number, without leading zeros. */
  function Digits(n: nat): (r: string)
    ensures |r| > 0
    ensures forall i :: 0 <= i < |r| ==> IsDigit(r[i])
    ensures |r| > 1 ==> r[0] != '0'
    decreases n
  {
    if n < 10 then [DigitChar(n)] else Digits(n / 10) + [DigitChar(n % 10)]
  }

  /** `n.toString()` for an integer `n`: a minus sign, then the digits. */
  function DecimalString(n: int): (r: string)
    ensures |r| > 0
  {
    if n < 0 then "-" + Digits(-n) else Digits(n)
  }

  function DigitValue(c: char): nat
  {
    if IsDigit(c) then c as int - '0' as int else 0
  }

  /** Reads a string of decimal digits back as a number. */
  function ParseDigits(s: string): nat
    decreases |s|
  {
    if |s| == 0 then 0 else 10 * ParseDigits(s[..|s| - 1]) + DigitValue(s[|s| - 1])
  }

  /** Reads an optional minus sign followed by digits. */
  function ParseDecimal(s: string): int
  {
    if |s| > 0 && s[0] == '-' then -(ParseDigits(s[1..]) as int) else ParseDigits(s)
  }

  lemma {:induction false} ParseDigitsInverse(n: nat)
    ensures ParseDigits(Digits(n)) == n
    decreases n
  {
    if n >= 10 {
      ParseDigitsInverse(n / 10);
      var d := Digits(n);
      assert d[..|d| - 1] == Digits(n / 10);
    }
  }

  /** Reading back the decimal rendering of any integer gives that integer. */
  lemma DecimalRoundTrip(n: int)
    ensures ParseDecimal(DecimalString(n)) == n
  {
    if n < 0 {
      ParseDigitsInverse(-n);
      assert DecimalString(n)[1..] == Digits(-n);
    } else {
      ParseDigitsInverse(n);
    }
  }

  /** Distinct integers have distinct decimal renderings. */
  lemma DecimalInjective(a: int, b: int)
    requires DecimalString(a) == DecimalString(b)
    ensures a == b
  {
    DecimalRoundTrip(a);
    DecimalRoundTrip(b);
  }

  /**
    The property names every plain object literal inherits from
    `Object.prototype`. Reading one of them from a lookup table that does not
    define it yields a function (or, for `__proto__`, the prototype object),
    which is truthy.
   */
  const ObjectPrototypeKeys: set<string> := {
    "constructor", "hasOwnProperty", "isPrototypeOf", "propertyIsEnumerable",
    "toString", "toLocaleString", "valueOf", "__proto__",
    "__defineGetter__", "__defineSetter__", "__lookupGetter__", "__lookupSetter__"}

  /**
    What `table[key] || fallback` yields when every entry of the table is
    truthy: a value (the table's own entry or the fallback), or the inherited
    `Object.prototype` member named `key`.
   */
  datatype Lookup<T> = Found(value: T) | Inherited(name: string)

  function LookupOr<T>(table: map<string, T>, key: string, fallback: T): Lookup<T>
  {
    if key in table then Found(table[key])
    else if key in ObjectPrototypeKeys then Inherited(key)
    else Found(fallback)
  }
}
