/**
 * Form validators: presence, e-mail shape, Costa Rican phone numbers and
 * identity numbers (cédulas), positive amounts and maximum lengths.
 */
module Validation {
  import opened Wrappers
  import opened Text
  import opened Seqs

  /** A JavaScript value as the presence and length checks distinguish it. */
  datatype JsValue = Null | Undefined | Str(s: string) | Arr(length: nat) | Other

  /** `required(value)`. */
  function Required(v: JsValue): (r: bool)
    ensures v.Null? || v.Undefined? ==> !r
    ensures v.Str? ==> (r <==> exists i | 0 <= i < |v.s| :: !IsSpace(v.s[i]))
    ensures v.Arr? ==> (r <==> v.length > 0)
    ensures v.Other? ==> r
  {
    match v
    case Null => false
    case Undefined => false
    case Str(s) => TrimEmptyIff(s); |Trim(s)| > 0
    case Arr(n) => n > 0
    case Other => true
  }

  // ---------------------------------------------------------------------
  // isEmail

  /** `[^\s@]`. */
  predicate Plain(c: char) {
    !IsSpace(c) && c != '@'
  }

  predicate AllPlain(t: string) {
    forall i | 0 <= i < |t| :: Plain(t[i])
  }

  /**
   * The language of `^[^\s@]+@[^\s@]+\.[^\s@]{2,}$`: a local part, `@`, a
   * non-empty domain part, a dot, and a last part of at least two UTF-16
   * code units (the pattern has no `u` flag), none of them white space or `@`.
   */
  predicate EmailPattern(s: string) {
    exists a, d | 0 <= a < |s| && 0 <= d < |s| :: SplitsAt(s, a, d)
  }

  /** The pattern matched with its `@` at `a` and the dot before the last part at `d`. */
  predicate SplitsAt(s: string, a: int, d: int) {
    1 <= a && a + 2 <= d < |s| &&
    s[a] == '@' && s[d] == '.' &&
    AllPlain(s[..a]) && AllPlain(s[a + 1..d]) && AllPlain(s[d + 1..]) && JsLength(s[d + 1..]) >= 2
  }

  /** `s.indexOf(c)`, -1 when absent. */
  function IndexOf(s: string, c: char): (i: int)
    ensures -1 <= i < |s|
    ensures i >= 0 ==> s[i] == c && forall j | 0 <= j < i :: s[j] != c
    ensures i == -1 ==> forall j | 0 <= j < |s| :: s[j] != c
  {
    if |s| == 0 then -1
    else if s[0] == c then 0
    else
      var k := IndexOf(s[1..], c);
      if k == -1 then -1 else k + 1
  }

  /** A direct test of the pattern: the first `@`, then the first dot after the domain's first character. */
  predicate EmailShape(s: string) {
    var a := IndexOf(s, '@');
    a >= 1 && a + 2 <= |s| && AllPlain(s[..a]) && AllPlain(s[a + 1..]) &&
    var d := IndexOf(s[a + 2..], '.');
    d >= 0 && JsLength(s[a + 2 + d + 1..]) >= 2
  }

  lemma EmailShapeMatchesPattern(s: string)
    ensures EmailShape(s) <==> EmailPattern(s)
  {
    if EmailShape(s) {
      ShapeGivesPattern(s);
    }
    if EmailPattern(s) {
      var a, d :| 0 <= a < |s| && 0 <= d < |s| && SplitsAt(s, a, d);
      PatternGivesShape(s, a, d);
    }
  }

  lemma ShapeGivesPattern(s: string)
    requires EmailShape(s)
    ensures EmailPattern(s)
  {
    var a := IndexOf(s, '@');
    var d := a + 2 + IndexOf(s[a + 2..], '.');
    assert s[d] == '.';
    assert s[a + 1..d] == s[a + 1..][..d - a - 1];
    assert s[d + 1..] == s[a + 1..][d - a..];
    assert SplitsAt(s, a, d);
  }

  lemma PatternGivesShape(s: string, a: int, d: int)
    requires 1 <= a && a + 2 <= d < |s|
    requires s[a] == '@' && s[d] == '.'
    requires AllPlain(s[..a]) && AllPlain(s[a + 1..d]) && AllPlain(s[d + 1..]) && JsLength(s[d + 1..]) >= 2
    ensures EmailShape(s)
  {
    forall j | 0 <= j < a ensures s[j] != '@' {
      assert s[j] == s[..a][j];
    }
    assert IndexOf(s, '@') == a;
    forall j | a + 1 <= j < |s| ensures Plain(s[j]) {
      if j < d {
        assert s[j] == s[a + 1..d][j - a - 1];
      } else if j > d {
        assert s[j] == s[d + 1..][j - d - 1];
      }
    }
    assert AllPlain(s[a + 1..]);
    var k := IndexOf(s[a + 2..], '.');
    assert s[a + 2..][d - a - 2] == '.';
    assert 0 <= k <= d - a - 2;
    TailFromEarlierDot(s, a + 2 + k, d);
  }

  /** The text after an earlier position is at least as long as the text after a later one. */
  lemma TailFromEarlierDot(s: string, e: nat, d: nat)
    requires e <= d < |s|
    ensures JsLength(s[e + 1..]) >= JsLength(s[d + 1..])
  {
    assert s[e + 1..] == s[e + 1..d + 1] + s[d + 1..];
    JsLengthAppend(s[e + 1..d + 1], s[d + 1..]);
  }

  /** Lower-casing changes neither white space, `@` nor dots. */
  lemma LowerKeepsPlain(c: char)
    ensures Plain(Lower(c)) == Plain(c)
    ensures (Lower(c) == '@') == (c == '@') && (Lower(c) == '.') == (c == '.')
  {
  }

  /** Two texts whose characters agree on being plain, `@` and `.` position by position. */
  predicate SameClasses(s: string, l: string) {
    |s| == |l| &&
    forall i | 0 <= i < |s| ::
      Plain(l[i]) == Plain(s[i]) && (l[i] == '@') == (s[i] == '@') && (l[i] == '.') == (s[i] == '.') &&
      CodeUnits(l[i]) == CodeUnits(s[i])
  }

  /** Texts whose characters agree on their code units have the same JavaScript length. */
  lemma {:induction false} SameUnitsSameLength(s: string, l: string)
    requires |s| == |l| && forall i | 0 <= i < |s| :: CodeUnits(l[i]) == CodeUnits(s[i])
    ensures JsLength(l) == JsLength(s)
  {
    if |s| > 0 {
      assert CodeUnits(l[0]) == CodeUnits(s[0]);
      SameUnitsSameLength(s[1..], l[1..]);
    }
  }

  lemma TailLengthTransfers(s: string, l: string, k: nat)
    requires SameClasses(s, l) && k <= |s|
    ensures JsLength(l[k..]) == JsLength(s[k..])
  {
    var st, lt := s[k..], l[k..];
    forall i | 0 <= i < |st| ensures CodeUnits(lt[i]) == CodeUnits(st[i]) {
      assert lt[i] == l[k + i] && st[i] == s[k + i];
    }
    SameUnitsSameLength(st, lt);
  }

  lemma SliceTransfers(s: string, l: string, i: nat, j: nat)
    requires SameClasses(s, l) && i <= j <= |s| && AllPlain(s[i..j])
    ensures AllPlain(l[i..j])
  {
    forall k | 0 <= k < j - i ensures Plain(l[i..j][k]) {
      assert l[i..j][k] == l[i + k] && s[i..j][k] == s[i + k];
    }
  }

  lemma PatternTransfers(s: string, l: string)
    requires SameClasses(s, l) && EmailPattern(s)
    ensures EmailPattern(l)
  {
    var a, d :| 0 <= a < |s| && 0 <= d < |s| && SplitsAt(s, a, d);
    assert s[..a] == s[0..a] && l[..a] == l[0..a];
    assert s[d + 1..] == s[d + 1..|s|] && l[d + 1..] == l[d + 1..|l|];
    SliceTransfers(s, l, 0, a);
    SliceTransfers(s, l, a + 1, d);
    SliceTransfers(s, l, d + 1, |s|);
    TailLengthTransfers(s, l, d + 1);
    PatternAt(l, a, d);
  }

  /** A text with `@` at `a` and a dot at `d` around plain parts matches the pattern. */
  lemma PatternAt(s: string, a: int, d: int)
    requires 1 <= a && a + 2 <= d < |s| && s[a] == '@' && s[d] == '.'
    requires AllPlain(s[..a]) && AllPlain(s[a + 1..d]) && AllPlain(s[d + 1..]) && JsLength(s[d + 1..]) >= 2
    ensures EmailPattern(s)
  {
    assert SplitsAt(s, a, d);
  }

  lemma LowerKeepsPattern(s: string)
    ensures EmailPattern(LowerStr(s)) <==> EmailPattern(s)
  {
    var l := LowerStr(s);
    forall i | 0 <= i < |s|
      ensures Plain(l[i]) == Plain(s[i]) && (l[i] == '@') == (s[i] == '@') && (l[i] == '.') == (s[i] == '.')
      ensures CodeUnits(l[i]) == CodeUnits(s[i])
    {
      LowerKeepsPlain(s[i]);
    }
    assert SameClasses(s, l) && SameClasses(l, s);
    if EmailPattern(s) {
      PatternTransfers(s, l);
    }
    if EmailPattern(l) {
      PatternTransfers(l, s);
    }
  }

  /**
   * `isEmail(email)` on the text of `email` (an empty one is falsy); the test
   * runs on the lower-cased text, which matches exactly when the original does.
   */
  function IsEmail(email: string): (r: bool)
    ensures r <==> email != "" && EmailPattern(email)
  {
    if email == "" then false
    else
      EmailShapeMatchesPattern(LowerStr(email));
      LowerKeepsPattern(email);
      EmailShape(LowerStr(email))
  }

  // ---------------------------------------------------------------------
  // isPhoneCR / isCedulaCR

  /** `String(x).replace(/[^0-9]/g, '')`. */
  function Digits(s: string): (ds: string)
    ensures |ds| <= |s|
    ensures forall i | 0 <= i < |ds| :: IsDigit(ds[i])
  {
    Filter(s, IsDigit)
  }

  /**
   * What removing the non-digits leaves: the digits of the text, in their
   * order, each as often as it occurs.
   */
  lemma DigitsMeaning(s: string)
    ensures IsSubseq(Digits(s), s)
    ensures forall c | IsDigit(c) :: multiset(Digits(s))[c] == multiset(s)[c]
  {
    FilterIsSubseq(s, IsDigit);
    forall c | IsDigit(c) ensures multiset(Filter(s, IsDigit))[c] == multiset(s)[c] {
      FilterMultiset(s, IsDigit, c);
    }
  }

  /** The positions of the text that hold a decimal digit. */
  function DigitPositions(s: string): set<int> {
    set i | 0 <= i < |s| && IsDigit(s[i])
  }

  /** The digit positions of a text are those of its prefix, plus its last position when that holds a digit. */
  lemma DigitPositionsSnoc(s: string)
    requires |s| > 0
    ensures DigitPositions(s) == DigitPositions(s[..|s| - 1]) + if IsDigit(s[|s| - 1]) then {|s| - 1} else {}
  {
    var n := |s| - 1;
    forall i ensures i in DigitPositions(s[..n]) <==> 0 <= i < n && IsDigit(s[i]) {
      if 0 <= i < n {
        assert s[..n][i] == s[i];
      }
    }
  }

  /** Removing the non-digits leaves one digit per digit position. */
  lemma {:induction false} DigitsCount(s: string)
    ensures |Digits(s)| == |DigitPositions(s)|
  {
    if |s| > 0 {
      var n := |s| - 1;
      DigitsCount(s[..n]);
      assert s == s[..n] + [s[n]];
      FilterAppend(s[..n], [s[n]], IsDigit);
      DigitPositionsSnoc(s);
      assert n !in DigitPositions(s[..n]);
    }
  }

  /** `isPhoneCR(phone)`: a non-empty text holding exactly eight decimal digits. */
  function IsPhoneCR(phone: string): (r: bool)
    ensures r <==> phone != "" && |DigitPositions(phone)| == 8
  {
    DigitsCount(phone);
    phone != "" && |Digits(phone)| == 8
  }

  /** `isCedulaCR(id)`: a non-empty text holding nine to twelve decimal digits. */
  function IsCedulaCR(id: string): (r: bool)
    ensures r <==> id != "" && 9 <= |DigitPositions(id)| <= 12
  {
    DigitsCount(id);
    id != "" && 9 <= |Digits(id)| <= 12
  }

  /** A phone number written with a dash passes; one digit short, it does not. */
  lemma PhoneExamples()
    ensures IsPhoneCR("8888-8888") && !IsPhoneCR("8888-888")
  {
    DigitsAroundDash("8888", "8888");
    assert "8888-8888" == "8888" + "-" + "8888";
    DigitsAroundDash("8888", "888");
    assert "8888-888" == "8888" + "-" + "888";
  }

  /** A dash between two runs of digits is dropped. */
  lemma DigitsAroundDash(a: string, b: string)
    requires forall i | 0 <= i < |a| :: IsDigit(a[i])
    requires forall i | 0 <= i < |b| :: IsDigit(b[i])
    ensures Digits(a + "-" + b) == a + b
  {
    AllDigitsKept(a);
    AllDigitsKept(b);
    var rest := "-" + b;
    assert a + "-" + b == a + rest;
    FilterAppend(a, rest, IsDigit);
    assert rest[0] == '-' && rest[1..] == b;
    assert Filter(rest, IsDigit) == Filter(b, IsDigit);
  }

  /** A text made only of digits is kept whole. */
  lemma {:induction false} AllDigitsKept(s: string)
    requires forall i | 0 <= i < |s| :: IsDigit(s[i])
    ensures Digits(s) == s
  {
    if |s| > 0 {
      AllDigitsKept(s[1..]);
    }
  }

  /** Separators do not matter: dropping a non-digit changes neither verdict. */
  lemma SeparatorsIgnored(a: string, c: char, b: string)
    requires !IsDigit(c)
    ensures IsPhoneCR(a + [c] + b) == IsPhoneCR(a + b)
    ensures IsCedulaCR(a + [c] + b) == IsCedulaCR(a + b)
  {
    FilterAppend(a, [c] + b, IsDigit);
    FilterAppend([c], b, IsDigit);
    FilterAppend(a, b, IsDigit);
    assert a + [c] + b == a + ([c] + b);
  }

  /** No text is both a phone number and a cédula. */
  lemma PhoneIsNotCedula(s: string)
    ensures !(IsPhoneCR(s) && IsCedulaCR(s))
  {
  }

  // ---------------------------------------------------------------------
  // isPositiveAmount / maxLength

  /**
   * `isPositiveAmount(value)` on `Number(value)`; `None` stands for NaN.
   */
  function IsPositiveAmount(num: Option<int>): (r: bool)
    ensures r <==> num.Some? && num.value > 0
  {
    match num
    case None => false
    case Some(n) => n > 0
  }

  /** `maxLength(value, max)`: only strings qualify, measured in UTF-16 code units. */
  function MaxLength(v: JsValue, max: int): (r: bool)
    ensures r ==> v.Str?
    ensures v.Str? ==> (r <==> JsLength(v.s) <= max)
    ensures v.Str? && max < |v.s| ==> !r
    ensures v.Str? && 2 * |v.s| <= max ==> r
  {
    match v
    case Str(s) => JsLength(s) <= max
    case _ => false
  }

  /** A character above U+FFFF counts twice: an emoji alone exceeds a limit of one. */
  lemma AstralCountsTwice()
    ensures !MaxLength(Str("\U{1F600}"), 1) && MaxLength(Str("\U{1F600}"), 2)
    ensures IsEmail("a@b.\U{1F600}")
  {
    var s := "a@b.\U{1F600}";
    assert s[4..] == "\U{1F600}";
    assert JsLength(s[4..]) == 2;
    assert SplitsAt(s, 1, 3);
  }

  /** A string within a bound stays within every larger one. */
  lemma MaxLengthMonotone(v: JsValue, m: int, n: int)
    requires m <= n && MaxLength(v, m)
    ensures MaxLength(v, n)
  {
  }
}
