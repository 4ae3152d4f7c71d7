/** `normalize_phone` (alcatelik40_smsctl.py:144-156): the canonical form a
    phone number is compared in. */
module Phone {
  import opened Json
  import opened PyText

  /** `re.sub(r'[^\d+]', '', s)`: keep only the digits and the plus signs,
      wherever they stand. */
  function DigitsAndPlus(s: string): string
  {
    if s == [] then []
    else (if IsDigit(s[0]) || s[0] == '+' then [s[0]] else []) + DigitsAndPlus(s[1..])
  }

  /** The filtered text is no longer than the text and holds only digits
      and plus signs. */
  lemma {:induction false} DigitsAndPlusShape(s: string)
    ensures |DigitsAndPlus(s)| <= |s|
    ensures forall i :: 0 <= i < |DigitsAndPlus(s)| ==>
      IsDigit(DigitsAndPlus(s)[i]) || DigitsAndPlus(s)[i] == '+'
  {
    if s != [] {
      DigitsAndPlusShape(s[1..]);
    }
  }

  /** The domestic trunk prefix 8 of an 11-character number becomes the
      country code 7. */
  function TrunkToCountry(n: string): string
  {
    if |n| == 11 && n[0] == '8' then "7" + n[1..] else n
  }

  /** One leading `+` is dropped. */
  function DropPlus(n: string): string
  {
    if n != [] && n[0] == '+' then n[1..] else n
  }

  /** `normalize_phone(v)`. A falsy value gives ""; anything else is
      stringified, reduced to digits and plus signs, trunk-rewritten and
      stripped of one leading plus; if that is not a non-empty digit
      string, the lower-cased, trimmed text of the value is used instead. */
  function NormalizePhone(v: Json): (r: string)
    ensures !Truthy(v) ==> r == ""
  {
    if !Truthy(v) then ""
    else
      var s := Str(v);
      var n := DropPlus(TrunkToCountry(DigitsAndPlus(s)));
      if IsDigits(n) then n else Strip(Lower(s))
  }

  /** The digits-and-plus forms that denote a phone number: plain digits,
      or one plus sign followed by digits. */
  predicate LooksLikeNumber(d: string)
  {
    IsDigits(d) || (|d| >= 2 && d[0] == '+' && IsDigits(d[1..]))
  }

  /** The canonical digits of such a form, stated independently of the
      order of the steps: an 11-digit number without a plus that starts
      with 8 is read as starting with 7, a plus sign is removed. */
  function Canonical(d: string): (r: string)
    requires LooksLikeNumber(d)
    ensures IsDigits(r)
  {
    if d[0] == '+' then d[1..]
    else if |d| == 11 && d[0] == '8' then "7" + d[1..]
    else d
  }

  /** A non-empty digits-and-plus form without a plus sign is all digits. */
  lemma PlusFreeIsDigits(d: string)
    requires forall i :: 0 <= i < |d| ==> IsDigit(d[i]) || d[i] == '+'
    ensures d != [] && '+' !in d ==> IsDigits(d)
  {
  }

  /** The three rewriting steps, applied to a digits-and-plus form, give
      digits exactly when the form looks like a number, and then they give
      its canonical digits. */
  lemma StepsYieldCanonical(d: string)
    requires forall i :: 0 <= i < |d| ==> IsDigit(d[i]) || d[i] == '+'
    ensures IsDigits(DropPlus(TrunkToCountry(d))) <==> LooksLikeNumber(d)
    ensures LooksLikeNumber(d) ==> DropPlus(TrunkToCountry(d)) == Canonical(d)
  {
    if d != [] && d[0] == '+' {
      assert TrunkToCountry(d) == d;
    } else if |d| == 11 && d[0] == '8' {
      var t := "7" + d[1..];
      assert t[1..] == d[1..];
      assert DropPlus(t) == t;
    }
  }

  /** The three possible outcomes of normalisation: "" for a falsy value,
      the canonical digits when the digits-and-plus form looks like a
      number, and otherwise the lower-cased, trimmed text of the value, in
      which case that form was empty or still held a plus sign. */
  lemma NormalizeCases(v: Json)
    ensures !Truthy(v) ==> NormalizePhone(v) == ""
    ensures Truthy(v) && LooksLikeNumber(DigitsAndPlus(Str(v))) ==>
      NormalizePhone(v) == Canonical(DigitsAndPlus(Str(v)))
    ensures Truthy(v) && !LooksLikeNumber(DigitsAndPlus(Str(v))) ==>
      NormalizePhone(v) == Strip(Lower(Str(v))) &&
      (DigitsAndPlus(Str(v)) == [] || '+' in DigitsAndPlus(Str(v)))
  {
    var d := DigitsAndPlus(Str(v));
    DigitsAndPlusShape(Str(v));
    StepsYieldCanonical(d);
    PlusFreeIsDigits(d);
  }

  /** Normalising a text whose digits-and-plus form looks like a number
      gives that form's canonical digits. */
  lemma NormalizeNumberText(s: string)
    requires LooksLikeNumber(DigitsAndPlus(s))
    ensures NormalizePhone(JStr(s)) == Canonical(DigitsAndPlus(s))
  {
    NormalizeCases(JStr(s));
  }

  /** Formatting characters do not matter: two values with the same
      digits-and-plus form that looks like a number normalise alike. */
  lemma NormalizeIgnoresFormatting(a: Json, b: Json)
    requires Truthy(a) && Truthy(b)
    requires DigitsAndPlus(Str(a)) == DigitsAndPlus(Str(b))
    requires LooksLikeNumber(DigitsAndPlus(Str(a)))
    ensures NormalizePhone(a) == NormalizePhone(b)
  {
    NormalizeCases(a);
    NormalizeCases(b);
  }

  /** Equal canonical numbers agree on every digit after the first, and
      their first digits are equal unless one of them is the trunk prefix 8
      of an 11-digit number written without a plus and the other is the
      country code 7. */
  lemma MatchIsExact(da: string, db: string)
    requires LooksLikeNumber(da) && LooksLikeNumber(db)
    requires Canonical(da) == Canonical(db)
    ensures DropPlus(da)[1..] == DropPlus(db)[1..]
    ensures DropPlus(da)[0] == DropPlus(db)[0] ||
      (|da| == 11 && da[0] == '8' && DropPlus(db)[0] == '7') ||
      (|db| == 11 && db[0] == '8' && DropPlus(da)[0] == '7')
  {
    var ca := Canonical(da);
    assert DropPlus(da)[1..] == ca[1..];
    assert DropPlus(db)[1..] == ca[1..];
  }

  /** A string of digits is its own digits-and-plus form. */
  lemma {:induction false} DigitsAndPlusOfDigits(s: string)
    requires forall i :: 0 <= i < |s| ==> IsDigit(s[i])
    ensures DigitsAndPlus(s) == s
  {
    if s != [] {
      DigitsAndPlusOfDigits(s[1..]);
    }
  }

  /** The same subscriber dialled domestically (8...), internationally
      (+7...) or without the plus (7...) has one canonical form. */
  lemma DomesticMatchesInternational(subscriber: string)
    requires |subscriber| == 10 && IsDigits(subscriber)
    ensures NormalizePhone(JStr("8" + subscriber)) == "7" + subscriber
    ensures NormalizePhone(JStr("+7" + subscriber)) == "7" + subscriber
    ensures NormalizePhone(JStr("7" + subscriber)) == "7" + subscriber
  {
    var domestic, national := "8" + subscriber, "7" + subscriber;
    var international := "+" + national;
    assert "+7" + subscriber == international;
    DigitsAndPlusOfDigits(domestic);
    DigitsAndPlusOfDigits(national);
    assert international[1..] == national;
    assert DigitsAndPlus(international) == international;
    assert domestic[1..] == subscriber;
    NormalizeNumberText(domestic);
    NormalizeNumberText(national);
    NormalizeNumberText(international);
  }

  /** Filtering distributes over concatenation. */
  lemma {:induction false} DigitsAndPlusConcat(a: string, b: string)
    ensures DigitsAndPlus(a + b) == DigitsAndPlus(a) + DigitsAndPlus(b)
  {
    if a != [] {
      assert (a + b)[1..] == a[1..] + b;
      DigitsAndPlusConcat(a[1..], b);
    } else {
      assert a + b == b;
    }
  }

  /** A separator without digits or plus signs leaves the filtered form
      of what follows unchanged. */
  lemma SkipSeparator(sep: string, rest: string)
    requires DigitsAndPlus(sep) == []
    ensures DigitsAndPlus(sep + rest) == DigitsAndPlus(rest)
  {
    DigitsAndPlusConcat(sep, rest);
  }

  /** Digits in front are kept as they are. */
  lemma KeepDigits(digits: string, rest: string)
    requires IsDigits(digits)
    ensures DigitsAndPlus(digits + rest) == digits + DigitsAndPlus(rest)
  {
    DigitsAndPlusOfDigits(digits);
    DigitsAndPlusConcat(digits, rest);
  }

  /** The digits-and-plus form of "+7 (AAA) BBB-CC-DD" is "+7AAABBBCCDD". */
  lemma FormattedDigits(area: string, exchange: string, pair1: string, pair2: string)
    requires IsDigits(area) && IsDigits(exchange) && IsDigits(pair1) && IsDigits(pair2)
    ensures DigitsAndPlus("+7 (" + (area + (") " + (exchange + ("-" + (pair1 + ("-" + pair2)))))))
      == "+7" + (area + (exchange + (pair1 + pair2)))
  {
    assert DigitsAndPlus("-") == [];
    assert DigitsAndPlus(") ") == [];
    assert DigitsAndPlus("+7 (") == "+7";
    DigitsAndPlusOfDigits(pair2);
    SkipSeparator("-", pair2);
    KeepDigits(pair1, "-" + pair2);
    SkipSeparator("-", pair1 + ("-" + pair2));
    KeepDigits(exchange, "-" + (pair1 + ("-" + pair2)));
    SkipSeparator(") ", exchange + ("-" + (pair1 + ("-" + pair2))));
    KeepDigits(area, ") " + (exchange + ("-" + (pair1 + ("-" + pair2)))));
    DigitsAndPlusConcat("+7 (", area + (") " + (exchange + ("-" + (pair1 + ("-" + pair2))))));
  }

  /** A number written with a plus, the country code 7 and the usual
      punctuation, "+7 (AAA) BBB-CC-DD", normalises to "7AAABBBCCDD". */
  lemma FormattedNumber(area: string, exchange: string, pair1: string, pair2: string)
    requires IsDigits(area) && IsDigits(exchange) && IsDigits(pair1) && IsDigits(pair2)
    ensures NormalizePhone(JStr("+7 (" + (area + (") " + (exchange + ("-" + (pair1 + ("-" + pair2))))))))
      == "7" + (area + (exchange + (pair1 + pair2)))
  {
    var s := "+7 (" + (area + (") " + (exchange + ("-" + (pair1 + ("-" + pair2))))));
    var digits := area + (exchange + (pair1 + pair2));
    FormattedDigits(area, exchange, pair1, pair2);
    var d := "+7" + digits;
    assert d[1..] == "7" + digits;
    assert IsDigits(d[1..]);
    NormalizeNumberText(s);
  }

  /** An 11-digit number with the trunk prefix 8 is read with the country
      code 7 instead. */
  lemma DomesticNumber(n: string)
    requires |n| == 11 && IsDigits(n) && n[0] == '8'
    ensures NormalizePhone(JStr(n)) == "7" + n[1..]
  {
    DigitsAndPlusOfDigits(n);
    NormalizeNumberText(n);
  }

  /** A plus followed by digits loses the plus and nothing else: the trunk
      rewrite does not apply to it. */
  lemma PlusDigits(n: string)
    requires IsDigits(n)
    ensures NormalizePhone(JStr("+" + n)) == n
  {
    DigitsAndPlusOfDigits(n);
    assert ("+" + n)[1..] == n;
    assert DigitsAndPlus("+" + n) == "+" + n;
    NormalizeNumberText("+" + n);
  }

  /** A value whose text holds no digit and no plus is compared by its
      lower-cased, trimmed text. */
  lemma NoDigitsFallsBack(v: Json)
    requires Truthy(v) && DigitsAndPlus(Str(v)) == []
    ensures NormalizePhone(v) == Strip(Lower(Str(v)))
  {
    NormalizeCases(v);
  }

  lemma ShortCodeHasNoDigits()
    ensures DigitsAndPlus("ShortCode") == []
  {
  }

  lemma ShortLowered()
    ensures Lower("Short") == "short"
  {
  }

  lemma CodeLowered()
    ensures Lower("Code") == "code"
  {
  }

  lemma ShortCodeLowered()
    ensures Lower("ShortCode") == "shortcode"
  {
    ShortLowered();
    CodeLowered();
    LowerConcat("Short", "Code");
    assert "Short" + "Code" == "ShortCode";
  }

  lemma ShortCodeTrimmed()
    ensures Strip("shortcode") == "shortcode"
  {
  }

  /** A short code that holds no digits is compared by its lower-cased text. */
  lemma ShortCodeExample()
    ensures NormalizePhone(JStr("ShortCode")) == "shortcode"
  {
    ShortCodeHasNoDigits();
    ShortCodeLowered();
    ShortCodeTrimmed();
    NoDigitsFallsBack(JStr("ShortCode"));
  }

  lemma FormattedPieces()
    ensures "+7 (" + ("916" + (") " + ("123" + ("-" + ("45" + ("-" + "67")))))) == "+7 (916) 123-45-67"
    ensures "7" + ("916" + ("123" + ("45" + "67"))) == "79161234567"
  {
  }

  /** Three spellings of one subscriber meet in "79161234567". */
  lemma FormattedExample()
    ensures NormalizePhone(JStr("+7 (916) 123-45-67")) == "79161234567"
  {
    FormattedNumber("916", "123", "45", "67");
    FormattedPieces();
  }

  lemma DomesticDigits()
    ensures |"89161234567"| == 11 && IsDigits("89161234567")
    ensures "7" + "89161234567"[1..] == "79161234567"
  {
  }

  lemma DomesticExample()
    ensures NormalizePhone(JStr("89161234567")) == "79161234567"
  {
    DomesticDigits();
    DomesticNumber("89161234567");
  }

  lemma InternationalDigits()
    ensures IsDigits("79161234567")
    ensures "+" + "79161234567" == "+79161234567"
  {
  }

  lemma InternationalExample()
    ensures NormalizePhone(JStr("+79161234567")) == "79161234567"
  {
    InternationalDigits();
    PlusDigits("79161234567");
  }

  lemma TrunkDigits()
    ensures IsDigits("89161234567")
    ensures "+" + "89161234567" == "+89161234567"
  {
  }

  /** The trunk rewrite is checked before the plus is dropped, so
      normalisation is not idempotent: "+89161234567" keeps its 8, and
      normalising the result again turns it into a 7. */
  lemma NotIdempotent()
    ensures NormalizePhone(JStr("+89161234567")) == "89161234567"
    ensures NormalizePhone(JStr("89161234567")) == "79161234567"
  {
    TrunkDigits();
    PlusDigits("89161234567");
    DomesticExample();
  }
}
