/** The field validators (src/utils/validators.util.ts). Each `validate` takes any
    JavaScript value; the model's values are strings, numbers (exact rationals) and
    everything else. */
module Validators {
  import opened BalanceIntegrity

  datatype JsValue = JsString(s: string) | JsNumber(n: real) | JsOther

  /** One position of a fixed-length pattern. */
  datatype Atom = HexDigit | Exactly(c: char) | OneOf(cs: string)

  /** The UUID pattern ^[0-9a-f]{8}-[0-9a-f]{4}-[1-5][0-9a-f]{3}-[89ab][0-9a-f]{3}-[0-9a-f]{12}$
      is 36 single-character atoms; this is the atom at position i. */
  function UuidAtom(i: int): Atom {
    if i == 8 || i == 13 || i == 18 || i == 23 then Exactly('-')
    else if i == 14 then OneOf("12345")
    else if i == 19 then OneOf("89ab")
    else HexDigit
  }

  const UuidLength: int := 36

  /** ASCII lower-casing, which is what the pattern's `i` flag adds for these atoms. */
  function Lower(c: char): char {
    if 'A' <= c <= 'Z' then (c as int - 'A' as int + 'a' as int) as char else c
  }

  predicate IsHex(c: char) {
    '0' <= Lower(c) <= '9' || 'a' <= Lower(c) <= 'f'
  }

  predicate AtomMatches(a: Atom, c: char) {
    match a
    case HexDigit => IsHex(c)
    case Exactly(d) => Lower(c) == Lower(d)
    case OneOf(cs) => Lower(c) in cs
  }

  /** The anchored pattern matches: the right length and every character its atom. */
  predicate MatchesUuidPattern(s: string) {
    |s| == UuidLength && forall i :: 0 <= i < |s| ==> AtomMatches(UuidAtom(i), s[i])
  }

  predicate AllHex(t: string) {
    forall i :: 0 <= i < |t| ==> IsHex(t[i])
  }

  predicate IsVariant(c: char) {
    c == '8' || c == '9' || Lower(c) == 'a' || Lower(c) == 'b'
  }

  /** The group reading of a UUID: hex groups of 8, 4, 4, 4 and 12 digits joined by dashes,
      the third group starting with a version digit 1-5 and the fourth with a variant digit
      8, 9, a or b. */
  predicate UuidGroups(s: string) {
    && |s| == 36
    && AllHex(s[..8]) && s[8] == '-'
    && AllHex(s[9..13]) && s[13] == '-'
    && '1' <= s[14] <= '5' && AllHex(s[15..18]) && s[18] == '-'
    && IsVariant(s[19]) && AllHex(s[20..23]) && s[23] == '-'
    && AllHex(s[24..])
  }

  /** IsUUIDConstraint.validate: a string matching the pattern, ignoring case. */
  function IsUuid(value: JsValue): (ok: bool)
    ensures ok <==> value.JsString? && UuidGroups(value.s)
  {
    if value.JsString? then
      PatternIsGroups(value.s);
      MatchesUuidPattern(value.s)
    else
      false
  }

  /** Where the pattern has a run of hex atoms, a matching string has hex digits. */
  lemma MatchedRunIsHex(s: string, lo: int, hi: int)
    requires MatchesUuidPattern(s) && 0 <= lo <= hi <= |s|
    requires forall i :: lo <= i < hi ==> UuidAtom(i) == HexDigit
    ensures AllHex(s[lo..hi])
  {
    forall i | 0 <= i < hi - lo ensures IsHex(s[lo..hi][i]) {
      assert AtomMatches(UuidAtom(lo + i), s[lo + i]);
    }
  }

  /** Matching the pattern character by character is the group reading. */
  lemma PatternIsGroups(s: string)
    ensures MatchesUuidPattern(s) <==> UuidGroups(s)
  {
    if MatchesUuidPattern(s) {
      MatchedRunIsHex(s, 0, 8);
      MatchedRunIsHex(s, 9, 13);
      MatchedRunIsHex(s, 15, 18);
      MatchedRunIsHex(s, 20, 23);
      MatchedRunIsHex(s, 24, 36);
      assert s[24..36] == s[24..];
      assert AtomMatches(UuidAtom(8), s[8]) && AtomMatches(UuidAtom(13), s[13]);
      assert AtomMatches(UuidAtom(18), s[18]) && AtomMatches(UuidAtom(23), s[23]);
      assert AtomMatches(UuidAtom(14), s[14]) && AtomMatches(UuidAtom(19), s[19]);
    }
    if UuidGroups(s) {
      forall i | 0 <= i < 36 ensures AtomMatches(UuidAtom(i), s[i]) {
        if i < 8 { assert s[..8][i] == s[i]; }
        else if 8 < i < 13 { assert s[9..13][i - 9] == s[i]; }
        else if 14 < i < 18 { assert s[15..18][i - 15] == s[i]; }
        else if 19 < i < 23 { assert s[20..23][i - 20] == s[i]; }
        else if 23 < i { assert s[24..][i - 24] == s[i]; }
      }
    }
  }

  /** Five groups of the right lengths and digits, joined by dashes, make a UUID. */
  lemma UuidFromGroups(a: string, b: string, c: string, d: string, e: string)
    requires |a| == 8 && |b| == 4 && |c| == 4 && |d| == 4 && |e| == 12
    requires AllHex(a) && AllHex(b) && AllHex(c[1..]) && AllHex(d[1..]) && AllHex(e)
    requires '1' <= c[0] <= '5' && IsVariant(d[0])
    ensures IsUuid(JsString(a + "-" + b + "-" + c + "-" + d + "-" + e))
  {
    var s := a + "-" + b + "-" + c + "-" + d + "-" + e;
    assert s[..8] == a;
    assert s[9..13] == b;
    assert s[15..18] == c[1..];
    assert s[20..23] == d[1..];
    assert s[24..] == e;
  }

  /** The example identifier of the API documentation passes, in either case. */
  lemma UuidAcceptsExample()
    ensures IsUuid(JsString("123e4567" + "-" + "e89b" + "-" + "12d3" + "-" + "a456" + "-" + "426614174000"))
  {
    assert "12d3"[1..] == "2d3" && "a456"[1..] == "456";
    UuidFromGroups("123e4567", "e89b", "12d3", "a456", "426614174000");
  }

  lemma UuidAcceptsUpperCase()
    ensures IsUuid(JsString("123E4567" + "-" + "E89B" + "-" + "12D3" + "-" + "A456" + "-" + "426614174000"))
  {
    assert "12D3"[1..] == "2D3" && "A456"[1..] == "456";
    UuidFromGroups("123E4567", "E89B", "12D3", "A456", "426614174000");
  }

  /** A version digit outside 1-5 or a variant digit outside 8, 9, a, b fails, whatever
      the other groups hold; so do non-strings. */
  lemma UuidRejects(a: string, b: string, c: string, d: string, e: string)
    requires |a| == 8 && |b| == 4 && |c| == 4 && |d| == 4 && |e| == 12
    requires !('1' <= c[0] <= '5') || !IsVariant(d[0])
    ensures !IsUuid(JsString(a + "-" + b + "-" + c + "-" + d + "-" + e))
    ensures !IsUuid(JsNumber(1.0)) && !IsUuid(JsOther)
  {
    var s := a + "-" + b + "-" + c + "-" + d + "-" + e;
    assert s[14] == c[0] && s[19] == d[0];
  }

  /** IsDecimalConstraint.validate: a number with at most two digits after the point,
      that is, a whole number of cents. */
  function IsDecimal(value: JsValue): (ok: bool)
    ensures ok <==> value.JsNumber? && Dollars(RoundToTwoDecimals(value.n)) == value.n
  {
    if value.JsNumber? then
      TwoDecimalsIsRoundingFixedPoint(value.n);
      (100.0 * value.n).Floor as real == 100.0 * value.n
    else
      false
  }

  /** A number has at most two decimals exactly when rounding it to cents changes nothing. */
  lemma TwoDecimalsIsRoundingFixedPoint(x: real)
    ensures (100.0 * x).Floor as real == 100.0 * x <==> Dollars(RoundToTwoDecimals(x)) == x
  {
    var c := (100.0 * x).Floor;
    if c as real == 100.0 * x {
      assert Dollars(c) == x;
      RoundCentsExact(c);
    }
  }

  /** Every whole number of cents passes; a third decimal fails. */
  lemma DecimalOfCents(cents: int)
    ensures IsDecimal(JsNumber(Dollars(cents)))
    ensures !IsDecimal(JsNumber(0.125)) && !IsDecimal(JsString("1.5"))
  {
    RoundCentsExact(cents);
    assert RoundToTwoDecimals(0.125) == 13 by { RoundIsNearestCent(0.125, 13); }
  }

  /** IsInRangeConstraint.validate with the constraints [min, max]: a number in the closed
      interval. */
  function IsInRange(value: JsValue, min: real, max: real): (ok: bool)
    ensures ok ==> value.JsNumber? && min <= value.n <= max
    ensures value.JsNumber? && min <= value.n <= max ==> ok
  {
    value.JsNumber? && value.n >= min && value.n <= max
  }

  const Currencies: seq<string> := ["USD", "EUR", "GBP", "NGN", "CAD", "AUD"]

  function UpperChar(c: char): char {
    if 'a' <= c <= 'z' then (c as int - 'a' as int + 'A' as int) as char else c
  }

  /** ASCII upper-casing of a string. */
  function Upper(s: string): string {
    seq(|s|, i requires 0 <= i < |s| => UpperChar(s[i]))
  }

  /** IsCurrencyConstraint.validate: a string whose upper-case form is one of the six codes. */
  function IsCurrency(value: JsValue): (ok: bool)
    ensures ok ==> value.JsString? && |value.s| == 3
  {
    value.JsString? && Upper(value.s) in Currencies
  }

  /** A string with no lower-case letter is its own upper-case form. */
  lemma UpperOfUpper(s: string)
    requires forall i :: 0 <= i < |s| ==> !('a' <= s[i] <= 'z')
    ensures Upper(s) == s
  {
  }

  /** The check ignores case: a string passes exactly when its upper-case form does. */
  lemma CurrencyIgnoresCase(s: string)
    ensures IsCurrency(JsString(s)) <==> IsCurrency(JsString(Upper(s)))
  {
    UpperOfUpper(Upper(s));
  }

  /** Each of the six codes passes, and so does its lower-case spelling. */
  lemma CurrencyAccepts(code: string)
    requires code in Currencies
    ensures IsCurrency(JsString(code))
    ensures IsCurrency(JsString(seq(|code|, i requires 0 <= i < |code| => Lower(code[i]))))
  {
    UpperOfUpper(code);
    var lower := seq(|code|, i requires 0 <= i < |code| => Lower(code[i]));
    assert Upper(lower) == code;
  }

  /** JPY, which the error message names, fails, as do other lengths and non-strings. */
  lemma CurrencyRejects()
    ensures !IsCurrency(JsString("JPY")) && !IsCurrency(JsString("US")) && !IsCurrency(JsOther)
  {
    UpperOfUpper("JPY");
  }

  /** IsValidAmountConstraint.validate: a number in (0, 999999999.99]. */
  function IsValidAmount(value: JsValue): (ok: bool)
    ensures ok <==> value.JsNumber? && 0.0 < value.n <= 999999999.99
  {
    value.JsNumber? && value.n > 0.0 && value.n <= 999999999.99
  }

  /** On whole numbers of cents a valid amount is one to MaxBalance cents: zero is rejected
      and the largest balance is accepted. */
  lemma ValidAmountInCents(cents: int)
    ensures IsValidAmount(JsNumber(Dollars(cents))) <==> 1 <= cents <= MaxBalance
  {
  }

  /** For a number with at most two decimals, a valid amount is one in [0.01, 999999999.99],
      the range the request objects also state. */
  lemma ValidAmountIsRangeOfCents(value: JsValue)
    requires IsDecimal(value)
    ensures IsValidAmount(value) <==> IsInRange(value, 0.01, 999999999.99)
  {
    var c := RoundToTwoDecimals(value.n);
    assert value.n == Dollars(c);
  }
}
