/**
 * Characters and strings as the browser sees them, restricted to what the
 * application relies on: JavaScript's whitespace class, ASCII digits, the case
 * mapping of the Basic Latin and Latin-1 letters, `trim`, `includes`, `join`,
 * `String(n)` for integers and `parseInt` on decimal text.
 */
module Text {
  import opened Wrappers

  /** JavaScript's `\s`: white space and line terminators. */
  predicate IsSpace(c: char) {
    || c == ' ' || c == '\t' || c == '\n' || c == '\r' || c == '\U{000B}' || c == '\U{000C}'
    || c == '\U{00A0}' || c == '\U{1680}' || ('\U{2000}' <= c <= '\U{200A}')
    || c == '\U{2028}' || c == '\U{2029}' || c == '\U{202F}' || c == '\U{205F}'
    || c == '\U{3000}' || c == '\U{FEFF}'
  }

  predicate IsDigit(c: char) {
    '0' <= c <= '9'
  }

  predicate IsUpperLetter(c: char) {
    ('A' <= c <= 'Z') || ('\U{00C0}' <= c <= '\U{00DE}' && c != '\U{00D7}')
  }

  predicate IsLowerLetter(c: char) {
    ('a' <= c <= 'z') || ('\U{00E0}' <= c <= '\U{00FE}' && c != '\U{00F7}')
  }

  /** `toLowerCase` on one character (Basic Latin and Latin-1 letters). */
  function Lower(c: char): (r: char)
    ensures !IsUpperLetter(r)
    ensures IsSpace(r) == IsSpace(c) && IsDigit(r) == IsDigit(c)
    ensures !IsUpperLetter(c) ==> r == c
  {
    if IsUpperLetter(c) then (c as int + 32) as char else c
  }

  /** `toUpperCase` on one character (Basic Latin and Latin-1 letters). */
  function Upper(c: char): (r: char)
    ensures !IsLowerLetter(r)
    ensures IsSpace(r) == IsSpace(c)
    ensures Lower(r) == Lower(c)
  {
    if IsLowerLetter(c) then (c as int - 32) as char else c
  }

  predicate IsLowerStr(s: string) {
    forall i | 0 <= i < |s| :: Lower(s[i]) == s[i]
  }

  function LowerStr(s: string): (r: string)
    ensures |r| == |s| && IsLowerStr(r)
    ensures forall i | 0 <= i < |s| :: r[i] == Lower(s[i])
  {
    seq(|s|, i requires 0 <= i < |s| => Lower(s[i]))
  }

  predicate NoSpace(s: string) {
    forall i | 0 <= i < |s| :: !IsSpace(s[i])
  }

  function TrimStart(s: string): (r: string)
    ensures |r| <= |s| && r == s[|s| - |r|..]
    ensures |r| > 0 ==> !IsSpace(r[0])
    ensures forall i | 0 <= i < |s| - |r| :: IsSpace(s[i])
  {
    if |s| > 0 && IsSpace(s[0]) then TrimStart(s[1..]) else s
  }

  function TrimEnd(s: string): (r: string)
    ensures |r| <= |s| && r == s[..|r|]
    ensures |r| > 0 ==> !IsSpace(r[|r| - 1])
    ensures forall i | |r| <= i < |s| :: IsSpace(s[i])
  {
    if |s| > 0 && IsSpace(s[|s| - 1]) then TrimEnd(s[..|s| - 1]) else s
  }

  /** `String.prototype.trim`: drops leading and trailing white space. */
  function Trim(s: string): (r: string)
    ensures |r| > 0 ==> !IsSpace(r[0]) && !IsSpace(r[|r| - 1])
    ensures forall c | c in r :: c in s
    ensures NoSpace(s) ==> r == s
  {
    var t := TrimStart(s);
    var r := TrimEnd(t);
    assert forall c | c in r :: c in t;
    r
  }

  /** Trimming leaves nothing exactly when every character is white space. */
  lemma TrimEmptyIff(s: string)
    ensures |Trim(s)| == 0 <==> forall i | 0 <= i < |s| :: IsSpace(s[i])
  {
  }

  /** `s.includes(t)`. */
  predicate Contains(s: string, t: string) {
    exists i | 0 <= i <= |s| - |t| :: t <= s[i..]
  }

  lemma EmptyContained(s: string)
    ensures Contains(s, "")
  {
    assert "" <= s[0..];
  }

  /** `nombre.toLowerCase().includes(termino.toLowerCase())`, the name search of the student lists. */
  predicate CoincideBusqueda(nombre: string, termino: string) {
    Contains(LowerStr(nombre), LowerStr(termino))
  }

  /** The empty search matches every name. */
  lemma BusquedaVacia(nombre: string)
    ensures CoincideBusqueda(nombre, "")
  {
    EmptyContained(LowerStr(nombre));
  }

  /** `parts.join(sep)`. */
  function Join(parts: seq<string>, sep: string): string {
    if |parts| == 0 then ""
    else if |parts| == 1 then parts[0]
    else parts[0] + sep + Join(parts[1..], sep)
  }

  function DigitChar(d: nat): (c: char)
    requires d < 10
    ensures IsDigit(c)
  {
    ('0' as int + d) as char
  }

  /** `String(n)` for a non-negative integer. */
  function NatToString(n: nat): (s: string)
    ensures |s| > 0 && forall i | 0 <= i < |s| :: IsDigit(s[i])
  {
    if n < 10 then [DigitChar(n)] else NatToString(n / 10) + [DigitChar(n % 10)]
  }

  /** `String(i)` for an integer. */
  function IntToString(i: int): string {
    if i < 0 then "-" + NatToString(-i) else NatToString(i)
  }

  function DigitValue(c: char): nat
    requires IsDigit(c)
  {
    c as int - '0' as int
  }

  /** Value of a string of decimal digits. */
  function DigitsValue(ds: string): nat
    requires forall i | 0 <= i < |ds| :: IsDigit(ds[i])
  {
    if |ds| == 0 then 0
    else 10 * DigitsValue(ds[..|ds| - 1]) + DigitValue(ds[|ds| - 1])
  }

  /** The longest prefix of decimal digits. */
  function DigitPrefix(s: string): (ds: string)
    ensures |ds| <= |s| && ds == s[..|ds|]
    ensures forall i | 0 <= i < |ds| :: IsDigit(ds[i])
    ensures |ds| < |s| ==> !IsDigit(s[|ds|])
  {
    if |s| > 0 && IsDigit(s[0]) then [s[0]] + DigitPrefix(s[1..]) else ""
  }

  /**
   * `parseInt(s, 10)` (and `parseFloat` on integer text): leading white space,
   * an optional sign, then the longest run of digits; `None` stands for NaN.
   */
  function ParseIntPrefix(s: string): Option<int> {
    ParseSigned(TrimStart(s))
  }

  function ParseSigned(t: string): Option<int> {
    if |t| > 0 && t[0] == '-' then Negate(ParseDigits(t[1..]))
    else if |t| > 0 && t[0] == '+' then ParseDigits(t[1..])
    else ParseDigits(t)
  }

  function ParseDigits(t: string): Option<int> {
    var ds := DigitPrefix(t);
    if |ds| == 0 then None else Some(DigitsValue(ds))
  }

  function Negate(v: Option<int>): Option<int> {
    match v
    case None => None
    case Some(x) => Some(-x)
  }

  lemma {:induction false} DigitsValueOfNat(n: nat)
    ensures DigitsValue(NatToString(n)) == n
  {
    var s := NatToString(n);
    if n >= 10 {
      DigitsValueOfNat(n / 10);
      assert s[..|s| - 1] == NatToString(n / 10);
    }
  }

  lemma {:induction false} DigitPrefixOfDigits(s: string)
    requires forall i | 0 <= i < |s| :: IsDigit(s[i])
    ensures DigitPrefix(s) == s
  {
    if |s| > 0 {
      DigitPrefixOfDigits(s[1..]);
    }
  }

  lemma TrimStartUnchanged(s: string)
    requires |s| > 0 && !IsSpace(s[0])
    ensures TrimStart(s) == s
  {
  }

  lemma ParseDigitsOfNat(n: nat)
    ensures ParseDigits(NatToString(n)) == Some(n)
  {
    DigitPrefixOfDigits(NatToString(n));
    DigitsValueOfNat(n);
  }

  /** `parseInt(String(i))` gives `i` back. */
  lemma ParseIntOfIntToString(i: int)
    ensures ParseIntPrefix(IntToString(i)) == Some(i)
  {
    var s := IntToString(i);
    if i < 0 {
      var ns := NatToString(-i);
      assert s == "-" + ns;
      TrimStartUnchanged(s);
      assert s[1..] == ns;
      ParseDigitsOfNat(-i);
    } else {
      var ns := NatToString(i);
      assert s == ns;
      assert IsDigit(s[0]);
      TrimStartUnchanged(s);
      ParseDigitsOfNat(i);
    }
  }

  /** Every integer written in decimal reads back as itself. */
  lemma IntsReadBack()
    ensures forall i: int :: ParseIntPrefix(IntToString(i)) == Some(i)
  {
    forall i: int
      ensures ParseIntPrefix(IntToString(i)) == Some(i)
    {
      ParseIntOfIntToString(i);
    }
  }

  /** The number of UTF-16 code units that encode a character: two above U+FFFF. */
  function CodeUnits(c: char): nat {
    if c as int > 0xFFFF then 2 else 1
  }

  /** `s.length` in JavaScript: the number of UTF-16 code units of the text. */
  function JsLength(s: string): (n: nat)
    ensures |s| <= n <= 2 * |s|
    ensures (forall i | 0 <= i < |s| :: CodeUnits(s[i]) == 1) ==> n == |s|
  {
    if |s| == 0 then 0 else CodeUnits(s[0]) + JsLength(s[1..])
  }

  lemma {:induction false} JsLengthAppend(a: string, b: string)
    ensures JsLength(a + b) == JsLength(a) + JsLength(b)
  {
    if |a| > 0 {
      assert (a + b)[1..] == a[1..] + b;
      JsLengthAppend(a[1..], b);
    } else {
      assert a + b == b;
    }
  }

  /**
   * Where a character's first UTF-16 code unit places it: the characters
   * U+E000 to U+FFFF come after every character above U+FFFF, whose first
   * unit is a surrogate between U+D800 and U+DBFF.
   */
  function UnitRank(c: char): int {
    if 0xE000 <= c as int <= 0xFFFF then c as int + 0x110000 else c as int
  }

  /**
   * Lexicographic order on UTF-16 code units, the default order of
   * `Array.prototype.sort`: two characters that differ compare by their
   * first code unit, and by code point when both lie above U+FFFF.
   */
  predicate StrLe(a: string, b: string) {
    if |a| == 0 then true
    else if |b| == 0 then false
    else if a[0] != b[0] then UnitRank(a[0]) < UnitRank(b[0])
    else StrLe(a[1..], b[1..])
  }

  /** An emoji sorts before U+E000 to U+FFFF, as its surrogate units do. */
  lemma AstralBeforePrivateUse()
    ensures StrLe("\U{1F600}", "\U{E000}") && !StrLe("\U{E000}", "\U{1F600}")
  {
  }

  lemma {:induction false} StrLeTotal(a: string, b: string)
    ensures StrLe(a, b) || StrLe(b, a)
  {
    if |a| > 0 && |b| > 0 && a[0] == b[0] {
      StrLeTotal(a[1..], b[1..]);
    }
  }

  lemma {:induction false} StrLeTransitive(a: string, b: string, c: string)
    requires StrLe(a, b) && StrLe(b, c)
    ensures StrLe(a, c)
  {
    if |a| > 0 && |b| > 0 && |c| > 0 && a[0] == b[0] && b[0] == c[0] {
      StrLeTransitive(a[1..], b[1..], c[1..]);
    }
  }

  lemma {:induction false} StrLeAntisymmetric(a: string, b: string)
    requires StrLe(a, b) && StrLe(b, a)
    ensures a == b
  {
    if |a| > 0 && |b| > 0 {
      StrLeAntisymmetric(a[1..], b[1..]);
      assert a == [a[0]] + a[1..];
      assert b == [b[0]] + b[1..];
    }
  }
}
