/** The Python string built-ins the script applies to phone numbers and
    status codes, restricted to ASCII: `str()` of a JSON value, `lower()`,
    `strip()`, `isdigit()`. */
module PyText {
  import opened Json

  predicate IsDigit(c: char) { '0' <= c <= '9' }

  /** `s.isdigit()` on ASCII: non-empty and every character a digit. */
  predicate IsDigits(s: string)
  {
    s != [] && forall i :: 0 <= i < |s| ==> IsDigit(s[i])
  }

  /** The ASCII characters `str.isspace()` accepts: tab, newline, vertical
      tab, form feed, carriage return, the four separators 0x1C-0x1F, space. */
  predicate IsSpace(c: char)
  {
    c == ' ' || ('\t' <= c <= '\r') || (28 <= c as int <= 31)
  }

  function LowerChar(c: char): char
  {
    if 'A' <= c <= 'Z' then (c as int + 32) as char else c
  }

  /** `s.lower()`. */
  function Lower(s: string): string
  {
    if s == [] then [] else [LowerChar(s[0])] + Lower(s[1..])
  }

  /** Lower-casing works character by character. */
  lemma {:induction false} LowerConcat(a: string, b: string)
    ensures Lower(a + b) == Lower(a) + Lower(b)
  {
    if a == [] {
      assert a + b == b;
    } else {
      assert (a + b)[1..] == a[1..] + b;
      LowerConcat(a[1..], b);
    }
  }

  function StripLeft(s: string): string
    decreases |s|
  {
    if s != [] && IsSpace(s[0]) then StripLeft(s[1..]) else s
  }

  function StripRight(s: string): string
    decreases |s|
  {
    if s != [] && IsSpace(s[|s| - 1]) then StripRight(s[..|s| - 1]) else s
  }

  /** `s.strip()`: drop leading and trailing whitespace. */
  function Strip(s: string): (r: string)
  {
    StripRight(StripLeft(s))
  }

  function DigitChar(d: nat): char
    requires d < 10
  {
    ('0' as int + d) as char
  }

  /** The decimal digits of `n`, most significant first. */
  function NatStr(n: nat): (r: string)
    ensures IsDigits(r)
    ensures n > 0 ==> r[0] != '0'
    ensures n == 0 <==> r == "0"
  {
    if n < 10 then [DigitChar(n)] else NatStr(n / 10) + [DigitChar(n % 10)]
  }

  /** `str(n)` for an integer. */
  function IntStr(n: int): string
  {
    if n < 0 then "-" + NatStr(-n) else NatStr(n)
  }

  /** The number a string of decimal digits denotes. */
  function ParseNat(s: string): nat
    requires forall i :: 0 <= i < |s| ==> IsDigit(s[i])
  {
    if s == [] then 0
    else
      var last := s[|s| - 1];
      assert IsDigit(last);
      10 * ParseNat(s[..|s| - 1]) + (last as int - '0' as int)
  }

  /** Reading the decimal digits of `n` back gives `n`. */
  lemma {:induction false} NatStrRoundTrip(n: nat)
    ensures ParseNat(NatStr(n)) == n
  {
    var r := NatStr(n);
    if n >= 10 {
      NatStrRoundTrip(n / 10);
      assert r[..|r| - 1] == NatStr(n / 10);
    }
  }

  /** `str()` tells integers apart: two different integers never print
      alike. */
  lemma IntStrInjective(a: int, b: int)
    requires IntStr(a) == IntStr(b)
    ensures a == b
  {
    if a < 0 && b < 0 {
      assert NatStr(-a) == IntStr(a)[1..];
      NatStrRoundTrip(-a);
      NatStrRoundTrip(-b);
    } else if a >= 0 && b >= 0 {
      NatStrRoundTrip(a);
      NatStrRoundTrip(b);
    }
  }

  function HexDigit(d: nat): char
    requires d < 16
  {
    if d < 10 then DigitChar(d) else ('a' as int + d - 10) as char
  }

  /** The escaped form of one character inside a quoted `repr` of a string. */
  function EscapeChar(c: char, quote: char): string
  {
    if c == quote || c == '\\' then ['\\', c]
    else if c == '\t' then "\\t"
    else if c == '\n' then "\\n"
    else if c == '\r' then "\\r"
    else if c < ' ' || c as int == 127 then ['\\', 'x', HexDigit(c as int / 16), HexDigit(c as int % 16)]
    else [c]
  }

  function EscapeAll(s: string, quote: char): string
  {
    if s == [] then [] else EscapeChar(s[0], quote) + EscapeAll(s[1..], quote)
  }

  /** `repr(s)` for a string: single quotes, unless the string holds a
      single quote and no double quote. */
  function StrRepr(s: string): (r: string)
    ensures |r| >= 2
  {
    var quote := if '\'' in s && '"' !in s then '"' else '\'';
    [quote] + EscapeAll(s, quote) + [quote]
  }

  /** `", ".join(parts)`. */
  function JoinComma(parts: seq<string>): string
  {
    if parts == [] then []
    else if |parts| == 1 then parts[0]
    else parts[0] + ", " + JoinComma(parts[1..])
  }

  /** `repr(v)`, which is what `str()` shows for the members of a list or dict. */
  function Repr(v: Json): string
  {
    match v
    case JNull => "None"
    case JBool(b) => if b then "True" else "False"
    case JInt(i) => IntStr(i)
    case JStr(s) => StrRepr(s)
    case JArr(items) =>
      "[" + JoinComma(seq(|items|, k requires 0 <= k < |items| => Repr(items[k]))) + "]"
    case JObj(fields) =>
      "{" + JoinComma(seq(|fields|, k requires 0 <= k < |fields| =>
        StrRepr(fields[k].0) + ": " + Repr(fields[k].1))) + "}"
  }

  /** `str(v)`: a string is itself, anything else its `repr`. */
  function Str(v: Json): (r: string)
    ensures v.JStr? ==> r == v.s
    ensures v.JInt? ==> r == IntStr(v.i)
  {
    if v.JStr? then v.s else Repr(v)
  }
}
