/**
 * The field checks and input filters of the simulated card-payment dialog:
 * the card-number check (length, then the Luhn mod-10 checksum), the MM/YY
 * expiry check against the current date, and the filters that normalise what
 * the user types into the card-number, expiry and CVV fields.
 */
module PaymentChecks {
  import opened Text
  import opened Wrappers

  // ---------------------------------------------------------------------------
  // Card number: length and Luhn checksum
  // ---------------------------------------------------------------------------

  /** The value a digit adds to the Luhn sum: itself, or, when it is doubled,
      twice itself less 9 if that exceeds 9. */
  function LuhnDigit(c: char, doubled: bool): (v: nat)
    requires IsDigit(c)
    ensures v <= 9
  {
    var d := DigitValue(c);
    if doubled then (if 2 * d > 9 then 2 * d - 9 else 2 * d) else d
  }

  /** The Luhn sum of a digit string: counting from the right starting at 0,
      the digits at odd positions are doubled. */
  function LuhnSum(s: string): nat
    requires AllDigits(s)
  {
    if s == [] then 0 else LuhnDigit(s[0], (|s| - 1) % 2 == 1) + LuhnSum(s[1..])
  }

  /** What the card-number check accepts: once whitespace is removed, 13 to 19
      characters, all digits, with a Luhn sum divisible by 10. */
  predicate CardNumberValid(cardNumber: string)
  {
    var cleaned := StripSpaces(cardNumber);
    13 <= |cleaned| <= 19 && AllDigits(cleaned) && LuhnSum(cleaned) % 10 == 0
  }

  /** The card-number check. The loop runs from the rightmost character,
      alternating `isEven`. A non-digit character makes `parseInt` yield NaN,
      which then stays in the sum, so `sum % 10 === 0` fails: `nan` records that. */
  method ValidateCardNumber(cardNumber: string) returns (valid: bool)
    ensures valid == CardNumberValid(cardNumber)
  {
    var cleaned := StripSpaces(cardNumber);
    if |cleaned| < 13 || |cleaned| > 19 {
      return false;
    }
    var sum: nat := 0;
    var nan := false;
    var isEven := false;
    var i := |cleaned| - 1;
    while i >= 0
      invariant -1 <= i < |cleaned|
      invariant isEven == ((|cleaned| - 1 - i) % 2 == 1)
      invariant nan == !AllDigits(cleaned[i + 1..])
      invariant !nan ==> sum == LuhnSum(cleaned[i + 1..])
    {
      assert cleaned[i..] == [cleaned[i]] + cleaned[i + 1..];
      if IsDigit(cleaned[i]) && !nan {
        var digit := DigitValue(cleaned[i]);
        if isEven {
          digit := digit * 2;
          if digit > 9 {
            digit := digit - 9;
          }
        }
        sum := sum + digit;
      } else {
        nan := true;
      }
      isEven := !isEven;
      i := i - 1;
    }
    assert cleaned[0..] == cleaned;
    valid := !nan && sum % 10 == 0;
  }

  /** Replacing one digit by another changes the Luhn sum by the difference of
      the two digits' contributions. */
  lemma {:induction false} LuhnSumReplace(s: string, t: string, k: nat)
    requires AllDigits(s) && AllDigits(t) && |s| == |t| && k < |s|
    requires forall j :: 0 <= j < |s| && j != k ==> s[j] == t[j]
    ensures LuhnSum(s) - LuhnSum(t)
         == LuhnDigit(s[k], (|s| - 1 - k) % 2 == 1) - LuhnDigit(t[k], (|s| - 1 - k) % 2 == 1)
  {
    if k == 0 {
      assert s[1..] == t[1..];
    } else {
      assert s[0] == t[0];
      LuhnSumReplace(s[1..], t[1..], k - 1);
    }
  }

  /** The Luhn check detects every single-digit error: two digit strings of the
      same length that differ in exactly one position never both pass. */
  lemma LuhnDetectsSingleDigitError(s: string, t: string, k: nat)
    requires AllDigits(s) && AllDigits(t) && |s| == |t| && k < |s|
    requires s[k] != t[k]
    requires forall j :: 0 <= j < |s| && j != k ==> s[j] == t[j]
    ensures LuhnSum(s) % 10 != LuhnSum(t) % 10
    ensures CardNumberValid(s) ==> !CardNumberValid(t)
  {
    LuhnSumReplace(s, t, k);
    var doubled := (|s| - 1 - k) % 2 == 1;
    assert LuhnDigit(s[k], doubled) != LuhnDigit(t[k], doubled) by {
      assert DigitValue(s[k]) != DigitValue(t[k]);
    }
    DifferentLastDigit(LuhnSum(s), LuhnSum(t));
    StripSpacesOfDigits(s);
    StripSpacesOfDigits(t);
  }

  lemma DifferentLastDigit(x: nat, y: nat)
    requires x != y && -10 < x - y < 10
    ensures x % 10 != y % 10
  {
  }

  /** The published test number 4532015112830366 passes the card-number check. */
  lemma LuhnAcceptsTestNumber(cardNumber: string)
    requires cardNumber == "4532015112830366"
    ensures CardNumberValid(cardNumber)
  {
    LuhnSumOfTestNumber(cardNumber);
    StripSpacesOfDigits(cardNumber);
  }

  /** Changing its last digit (4532015112830367) makes it fail. */
  lemma LuhnRejectsTamperedTestNumber(cardNumber: string)
    requires cardNumber == "4532015112830367"
    ensures !CardNumberValid(cardNumber)
  {
    LuhnSumOfTestNumber(cardNumber);
    StripSpacesOfDigits(cardNumber);
  }

  /** The Luhn sum of 453201511283036d, digit by digit from the right. The
      string is a parameter so that the solver evaluates one step at a time. */
  lemma LuhnSumOfTestNumber(s: string)
    requires |s| == 16
    requires s[0] == '4'
    requires s[1] == '5'
    requires s[2] == '3'
    requires s[3] == '2'
    requires s[4] == '0'
    requires s[5] == '1'
    requires s[6] == '5'
    requires s[7] == '1'
    requires s[8] == '1'
    requires s[9] == '2'
    requires s[10] == '8'
    requires s[11] == '3'
    requires s[12] == '0'
    requires s[13] == '3'
    requires s[14] == '6'
    requires IsDigit(s[15])
    ensures AllDigits(s) && LuhnSum(s) == 44 + DigitValue(s[15])
  {
    assert AllDigits(s);
    LuhnSumOfTestNumberTail(s);
    assert s[7..][1..] == s[8..];
    assert LuhnSum(s[7..]) == 21 + DigitValue(s[15]);
    assert s[6..][1..] == s[7..];
    assert LuhnSum(s[6..]) == 22 + DigitValue(s[15]);
    assert s[5..][1..] == s[6..];
    assert LuhnSum(s[5..]) == 23 + DigitValue(s[15]);
    assert s[4..][1..] == s[5..];
    assert LuhnSum(s[4..]) == 23 + DigitValue(s[15]);
    assert s[3..][1..] == s[4..];
    assert LuhnSum(s[3..]) == 25 + DigitValue(s[15]);
    assert s[2..][1..] == s[3..];
    assert LuhnSum(s[2..]) == 31 + DigitValue(s[15]);
    assert s[1..][1..] == s[2..];
    assert LuhnSum(s[1..]) == 36 + DigitValue(s[15]);
    assert s[0..][1..] == s[1..];
    assert LuhnSum(s[0..]) == 44 + DigitValue(s[15]);
    assert s[0..] == s;
  }

  /** The Luhn sum of the last eight digits of the test number. */
  lemma LuhnSumOfTestNumberTail(s: string)
    requires |s| == 16
    requires s[8] == '1'
    requires s[9] == '2'
    requires s[10] == '8'
    requires s[11] == '3'
    requires s[12] == '0'
    requires s[13] == '3'
    requires s[14] == '6'
    requires IsDigit(s[15])
    ensures LuhnSum(s[8..]) == 20 + DigitValue(s[15])
  {
    assert s[15..][1..] == s[16..];
    assert LuhnSum(s[15..]) == 0 + DigitValue(s[15]);
    assert s[14..][1..] == s[15..];
    assert LuhnSum(s[14..]) == 3 + DigitValue(s[15]);
    assert s[13..][1..] == s[14..];
    assert LuhnSum(s[13..]) == 6 + DigitValue(s[15]);
    assert s[12..][1..] == s[13..];
    assert LuhnSum(s[12..]) == 6 + DigitValue(s[15]);
    assert s[11..][1..] == s[12..];
    assert LuhnSum(s[11..]) == 9 + DigitValue(s[15]);
    assert s[10..][1..] == s[11..];
    assert LuhnSum(s[10..]) == 16 + DigitValue(s[15]);
    assert s[9..][1..] == s[10..];
    assert LuhnSum(s[9..]) == 18 + DigitValue(s[15]);
    assert s[8..][1..] == s[9..];
    assert LuhnSum(s[8..]) == 20 + DigitValue(s[15]);
  }

  // ---------------------------------------------------------------------------
  // Card-number input: digits only, at most 19, shown in groups of four
  // ---------------------------------------------------------------------------

  function Min(a: int, b: int): int
  {
    if a <= b then a else b
  }

  /** The value stored for what was typed into the card-number field:
      its digits, cut to the first 19. */
  function CardNumberInput(value: string): (stored: string)
    ensures AllDigits(stored) && |stored| == Min(19, |DigitsOnly(value)|)
    ensures stored == DigitsOnly(value)[..|stored|]
  {
    var cleaned := DigitsOnly(value);
    cleaned[..Min(19, |cleaned|)]
  }

  /** `limited.match(/.{1,4}/g)?.join(" ") || limited`: consecutive blocks of
      four characters (the last one possibly shorter) joined by single spaces. */
  function GroupFour(s: string): string
  {
    if |s| <= 4 then s else s[..4] + " " + GroupFour(s[4..])
  }

  /** In the display form of a digit string, the spaces are exactly at every
      fifth position, and there is one fewer space than there are blocks. */
  lemma {:induction false} GroupFourLayout(s: string)
    requires AllDigits(s)
    ensures s != [] ==> |GroupFour(s)| == |s| + (|s| - 1) / 4
    ensures forall i :: 0 <= i < |GroupFour(s)| ==> (GroupFour(s)[i] == ' ' <==> i % 5 == 4)
  {
    if |s| > 4 {
      var g := GroupFour(s[4..]);
      GroupFourLayout(s[4..]);
      var r := GroupFour(s);
      assert r == s[..4] + " " + g;
      forall i | 0 <= i < |r| ensures r[i] == ' ' <==> i % 5 == 4 {
        if i < 4 {
          assert r[i] == s[i];
        } else if i > 4 {
          assert r[i] == g[i - 5];
        }
      }
    }
  }

  /** Removing the spaces from the display form gives back the stored digits. */
  lemma {:induction false} GroupFourRoundTrip(s: string)
    requires AllDigits(s)
    ensures StripSpaces(GroupFour(s)) == s
    ensures DigitsOnly(GroupFour(s)) == s
  {
    if |s| <= 4 {
      StripSpacesOfDigits(s);
      DigitsOnlyOfDigits(s);
    } else {
      GroupFourRoundTrip(s[4..]);
      StripSpacesAppend(s[..4] + " ", GroupFour(s[4..]));
      StripSpacesAppend(s[..4], " ");
      StripSpacesOfDigits(s[..4]);
      DigitsOnlyAppend(s[..4] + " ", GroupFour(s[4..]));
      DigitsOnlyAppend(s[..4], " ");
      DigitsOnlyOfDigits(s[..4]);
      assert s[..4] + s[4..] == s;
    }
  }

  /** A 16-digit number typed in four blocks separated by single spaces is
      stored as its 16 digits. */
  lemma TypedInFourBlocks(typed: string)
    requires |typed| == 19 && typed[4] == ' ' && typed[9] == ' ' && typed[14] == ' '
    requires AllDigits(typed[..4]) && AllDigits(typed[5..9]) && AllDigits(typed[10..14]) && AllDigits(typed[15..])
    ensures CardNumberInput(typed) == typed[..4] + typed[5..9] + typed[10..14] + typed[15..]
  {
    var a, b, c, d := typed[..4], typed[5..9], typed[10..14], typed[15..];
    var sp := [' '];
    assert DigitsOnly(sp) == [];
    assert typed == a + sp + b + sp + c + sp + d;
    DigitsOnlyAppend(a + sp + b + sp + c + sp, d);
    DigitsOnlyAppend(a + sp + b + sp + c, sp);
    DigitsOnlyAppend(a + sp + b + sp, c);
    DigitsOnlyAppend(a + sp + b, sp);
    DigitsOnlyAppend(a + sp, b);
    DigitsOnlyAppend(a, sp);
    DigitsOnlyOfDigits(a);
    DigitsOnlyOfDigits(b);
    DigitsOnlyOfDigits(c);
    DigitsOnlyOfDigits(d);
  }

  /** Typing the example card as `4532 0151 1283 0366` stores 4532015112830366. */
  lemma ExampleTypedCardNumber(typed: string)
    requires typed == "4532 0151 1283 0366"
    ensures CardNumberInput(typed) == "4532015112830366"
  {
    assert typed[..4] == "4532" && typed[5..9] == "0151" && typed[10..14] == "1283" && typed[15..] == "0366";
    TypedInFourBlocks(typed);
  }

  /** Feeding the displayed card number back into the input filter (what
      happens when the field's value is re-submitted unchanged) stores the same
      digits again. */
  lemma CardNumberInputIdempotent(value: string)
    ensures CardNumberInput(GroupFour(CardNumberInput(value))) == CardNumberInput(value)
  {
    var stored := CardNumberInput(value);
    GroupFourRoundTrip(stored);
  }

  /** The grouping spaces do not affect the card-number check. */
  lemma CardNumberValidIgnoresGrouping(s: string)
    requires AllDigits(s)
    ensures CardNumberValid(GroupFour(s)) == CardNumberValid(s)
  {
    GroupFourRoundTrip(s);
    StripSpacesOfDigits(s);
  }

  // ---------------------------------------------------------------------------
  // Expiry input and check
  // ---------------------------------------------------------------------------

  /** The expiry field's filter: the digits typed, with a `/` after the first
      two once there are at least two, and at most two digits after it. */
  function FormatExpiry(value: string): (r: string)
    ensures |r| <= 5
    ensures |DigitsOnly(value)| < 2 ==> r == DigitsOnly(value)
    ensures |DigitsOnly(value)| >= 2 ==>
      |r| >= 3 && r[2] == '/' && forall i :: 0 <= i < |r| && i != 2 ==> IsDigit(r[i])
    ensures DigitsOnly(r) == DigitsOnly(value)[..Min(4, |DigitsOnly(value)|)]
  {
    var cleaned := DigitsOnly(value);
    if |cleaned| >= 2 then
      var r := cleaned[..2] + "/" + cleaned[2..Min(4, |cleaned|)];
      DigitsOnlyAppend(cleaned[..2] + "/", cleaned[2..Min(4, |cleaned|)]);
      DigitsOnlyAppend(cleaned[..2], "/");
      DigitsOnlyOfDigits(cleaned[..2]);
      DigitsOnlyOfDigits(cleaned[2..Min(4, |cleaned|)]);
      assert cleaned[..2] + cleaned[2..Min(4, |cleaned|)] == cleaned[..Min(4, |cleaned|)];
      r
    else
      DigitsOnlyOfDigits(cleaned);
      cleaned
  }

  /** Formatting an already formatted expiry changes nothing. */
  lemma FormatExpiryIdempotent(value: string)
    ensures FormatExpiry(FormatExpiry(value)) == FormatExpiry(value)
  {
    var r := FormatExpiry(value);
    var cleaned := DigitsOnly(value);
    var k := Min(4, |cleaned|);
    assert DigitsOnly(r) == cleaned[..k];
    if |cleaned| >= 2 {
      assert r == cleaned[..2] + "/" + cleaned[2..k];
      assert cleaned[..k][..2] == cleaned[..2];
      assert cleaned[..k][2..Min(4, k)] == cleaned[2..k];
    }
  }

  /** The two-digit value of a string of exactly two ASCII digits:
      `/^\d{2}$/.test(p)` followed by `parseInt(p, 10)`. */
  function ParseTwoDigits(p: string): (n: Option<nat>)
    ensures n.Some? <==> |p| == 2 && AllDigits(p)
    ensures n.Some? ==> n.value == 10 * DigitValue(p[0]) + DigitValue(p[1]) && n.value <= 99
  {
    if |p| == 2 && IsDigit(p[0]) && IsDigit(p[1]) then
      Some(10 * DigitValue(p[0]) + DigitValue(p[1]))
    else
      None
  }

  /** The first two fields of `s.split('/')`, for an `s` that contains a `/`. */
  function SplitMonthYear(s: string): (string, string)
    requires '/' in s
  {
    var k := IndexOf(s, '/').value;
    var rest := s[k + 1..];
    var year := match IndexOf(rest, '/')
      case Some(j) => rest[..j]
      case None => rest;
    (s[..k], year)
  }

  /** The current date, as `new Date()` supplies it: the full year and the
      month numbered from 1 (`getMonth() + 1`). */
  datatype Today = Today(fullYear: int, month: int)

  /** JavaScript's `%`, whose result takes the sign of the dividend. */
  function JsRemainder(a: int, b: int): (r: int)
    requires b != 0
    ensures a >= 0 ==> 0 <= r < if b > 0 then b else -b
  {
    if a >= 0 then a % b else -((-a) % b)
  }

  /** The expiry check, step by step as the dialog runs it: length 5 and a
      `/`; month and year each exactly two digits; month 1 to 12; then the
      two-digit year compared with `getFullYear() % 100`, and the month with
      the current month when the years are equal. */
  predicate ExpiryValid(expiry: string, today: Today)
  {
    if |expiry| != 5 || '/' !in expiry then false
    else
      var (month, year) := SplitMonthYear(expiry);
      match (ParseTwoDigits(month), ParseTwoDigits(year))
      case (Some(monthNum), Some(yearNum)) =>
        if monthNum < 1 || monthNum > 12 then false
        else
          var currentYear := JsRemainder(today.fullYear, 100);
          if yearNum < currentYear then false
          else if yearNum == currentYear && monthNum < today.month then false
          else true
      case _ => false
  }

  /** An independent description of the accepted shape: two ASCII digits, a
      `/` and two ASCII digits, nothing else. */
  predicate ExpiryShape(e: string)
  {
    |e| == 5 && IsDigit(e[0]) && IsDigit(e[1]) && e[2] == '/' && IsDigit(e[3]) && IsDigit(e[4])
  }

  function ExpiryMonth(e: string): nat
    requires ExpiryShape(e)
  {
    10 * DigitValue(e[0]) + DigitValue(e[1])
  }

  function ExpiryYear(e: string): nat
    requires ExpiryShape(e)
  {
    10 * DigitValue(e[3]) + DigitValue(e[4])
  }

  /** The expiry check accepts exactly the `MM/YY` strings with a month from 1
      to 12 whose two-digit year is after the current one, or equal to it with
      a month no earlier than the current month. */
  lemma ExpiryValidCharacterization(expiry: string, today: Today)
    ensures ExpiryValid(expiry, today) <==>
      && ExpiryShape(expiry)
      && 1 <= ExpiryMonth(expiry) <= 12
      && var cy := JsRemainder(today.fullYear, 100);
         (ExpiryYear(expiry) > cy || (ExpiryYear(expiry) == cy && ExpiryMonth(expiry) >= today.month))
  {
    if |expiry| == 5 && '/' in expiry {
      var (month, year) := SplitMonthYear(expiry);
      if ParseTwoDigits(month).Some? && ParseTwoDigits(year).Some? {
        SplitOfParsed(expiry);
      }
      if ExpiryShape(expiry) {
        SplitOfShape(expiry);
      }
    }
  }

  /** When both fields parse, the `/` stands at index 2 and the fields are the
      characters around it. */
  lemma SplitOfParsed(expiry: string)
    requires |expiry| == 5 && '/' in expiry
    requires ParseTwoDigits(SplitMonthYear(expiry).0).Some? && ParseTwoDigits(SplitMonthYear(expiry).1).Some?
    ensures SplitMonthYear(expiry) == (expiry[..2], expiry[3..])
  {
    var k := IndexOf(expiry, '/').value;
    assert k == 2;
    var rest := expiry[3..];
    assert |SplitMonthYear(expiry).1| == 2;
    assert IndexOf(rest, '/').None?;
  }

  lemma SplitOfShape(expiry: string)
    requires ExpiryShape(expiry)
    ensures SplitMonthYear(expiry) == (expiry[..2], expiry[3..])
  {
    assert expiry[0] != '/' && expiry[1] != '/';
    assert IndexOf(expiry, '/') == Some(2);
    var rest := expiry[3..];
    assert rest == [expiry[3], expiry[4]];
    assert '/' !in rest;
  }

  /** Malformed strings are rejected whatever the date. */
  lemma ExpiryRejectsMalformed(today: Today)
    ensures !ExpiryValid("1/23", today)
    ensures !ExpiryValid("13/25", today)
    ensures !ExpiryValid("00/25", today)
    ensures !ExpiryValid("ab/25", today)
  {
    ExpiryValidCharacterization("13/25", today);
    ExpiryValidCharacterization("00/25", today);
    ExpiryValidCharacterization("ab/25", today);
  }

  /** In April 2025 a card that expired last month is rejected. */
  lemma ExpiryRejectsLastMonth(expiry: string, today: Today)
    requires expiry == "03/25" && today == Today(2025, 4)
    ensures !ExpiryValid(expiry, today)
  {
    ExpiryValidCharacterization(expiry, today);
  }

  /** In April 2025 a card expiring this month is still accepted. */
  lemma ExpiryAcceptsThisMonth(expiry: string, today: Today)
    requires expiry == "04/25" && today == Today(2025, 4)
    ensures ExpiryValid(expiry, today)
  {
    ExpiryValidCharacterization(expiry, today);
  }

  /** In April 2025 a card expiring in a later year, such as the example
      reservation's `12/30`, is accepted. */
  lemma ExampleExpiryValid(expiry: string, today: Today)
    requires expiry == "12/30" && today == Today(2025, 4)
    ensures ExpiryValid(expiry, today)
  {
    ExpiryValidCharacterization(expiry, today);
  }

  /** The comparison is on two-digit years only: in December 2099 a card
      expiring in January 2100 (`01/00`) is rejected as past. */
  lemma ExpiryCenturyRollover(expiry: string, lastMonthOfCentury: Today, firstMonthOfCentury: Today)
    requires expiry == "01/00"
    requires lastMonthOfCentury == Today(2099, 12) && firstMonthOfCentury == Today(2000, 1)
    ensures !ExpiryValid(expiry, lastMonthOfCentury)
    ensures ExpiryValid(expiry, firstMonthOfCentury)
  {
    ExpiryValidCharacterization(expiry, lastMonthOfCentury);
    ExpiryValidCharacterization(expiry, firstMonthOfCentury);
  }

  /** Once four or more digits have been typed, the formatted expiry has the
      `MM/YY` shape, so only the month range and the date can still fail. */
  lemma FormatExpiryShape(value: string)
    requires |DigitsOnly(value)| >= 4
    ensures ExpiryShape(FormatExpiry(value))
  {
  }

  // ---------------------------------------------------------------------------
  // CVV input and the card mask
  // ---------------------------------------------------------------------------

  /** The CVV field's filter, `value.replace(/\D/g, "").slice(0, 4)`. */
  function CvvInput(value: string): (cvv: string)
    ensures AllDigits(cvv) && |cvv| == Min(4, |DigitsOnly(value)|)
    ensures cvv == DigitsOnly(value)[..|cvv|]
  {
    var cleaned := DigitsOnly(value);
    cleaned[..Min(4, |cleaned|)]
  }

  lemma CvvInputIdempotent(value: string)
    ensures CvvInput(CvvInput(value)) == CvvInput(value)
  {
    DigitsOnlyOfDigits(CvvInput(value));
  }

  const Bullets: string := "\U{2022}\U{2022}\U{2022}\U{2022}"

  /** The card shown on the receipt: four bullets, then a space and the last
      four characters when there are at least four. */
  function MaskedCard(cardNumber: string): string
  {
    if |cardNumber| >= 4 then Bullets + " " + cardNumber[|cardNumber| - 4..] else Bullets
  }

  /** The mask reveals no digit but the last four of the card number. */
  lemma MaskedCardRevealsLastFour(cardNumber: string)
    requires AllDigits(cardNumber)
    ensures DigitsOnly(MaskedCard(cardNumber))
         == if |cardNumber| >= 4 then cardNumber[|cardNumber| - 4..] else []
    ensures MaskedCard(cardNumber)[..4] == Bullets
  {
    assert DigitsOnly(Bullets) == [];
    if |cardNumber| >= 4 {
      var last := cardNumber[|cardNumber| - 4..];
      DigitsOnlyAppend(Bullets + " ", last);
      DigitsOnlyAppend(Bullets, " ");
      DigitsOnlyOfDigits(last);
    }
  }

  /** The receipt for the example card 4532015112830366 reads `•••• 0366`. */
  lemma ExampleReceipt(cardNumber: string)
    requires cardNumber == "4532015112830366"
    ensures MaskedCard(cardNumber) == Bullets + " 0366"
  {
    assert cardNumber[|cardNumber| - 4..] == "0366";
  }
}
