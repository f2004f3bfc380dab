/**
 * The payment dialog's state and its submit handler: the ordered,
 * short-circuiting validation chain, and the paid / reset lifecycle driven by
 * two deferred callbacks. The current date and the firing of the deferred
 * callbacks are inputs of the model; their delays are not modelled.
 */
module PaymentDialog {
  import opened Text
  import opened PaymentChecks

  /** The four form fields, as the dialog keeps them in one state object. */
  datatype FormData = FormData(cardNumber: string, cardName: string, expiry: string, cvv: string)

  const EmptyForm := FormData("", "", "", "")

  /** The five messages the submit handler can show, one per rule. */
  datatype PaymentError =
    | InvalidCardholderName
    | InvalidCardNumberFormat
    | InvalidCardNumberChecksum
    | InvalidOrExpiredDate
    | InvalidCvv

  /** The position of each rule in the chain. */
  function Rank(rule: PaymentError): nat
  {
    match rule
    case InvalidCardholderName => 0
    case InvalidCardNumberFormat => 1
    case InvalidCardNumberChecksum => 2
    case InvalidOrExpiredDate => 3
    case InvalidCvv => 4
  }

  /** The cardholder name has a character other than whitespace. */
  predicate NameGiven(name: string)
  {
    exists i :: 0 <= i < |name| && !IsSpace(name[i])
  }

  /** The card number has at least one digit. */
  predicate HasDigit(cardNumber: string)
  {
    exists i :: 0 <= i < |cardNumber| && IsDigit(cardNumber[i])
  }

  /** The CVV is three or four digits. */
  predicate CvvWellFormed(cvv: string)
  {
    3 <= |cvv| <= 4 && AllDigits(cvv)
  }

  /** What each rule demands of the fields, on its own. */
  predicate Passes(f: FormData, today: Today, rule: PaymentError)
  {
    match rule
    case InvalidCardholderName => NameGiven(f.cardName)
    case InvalidCardNumberFormat => HasDigit(f.cardNumber)
    case InvalidCardNumberChecksum => CardNumberValid(f.cardNumber)
    case InvalidOrExpiredDate => ExpiryValid(f.expiry, today)
    case InvalidCvv => CvvWellFormed(f.cvv)
  }

  datatype SubmitOutcome = Rejected(error: PaymentError) | Accepted

  lemma {:induction false} DigitsOnlyEmpty(s: string)
    ensures DigitsOnly(s) == [] <==> !HasDigit(s)
  {
    if s != [] {
      DigitsOnlyEmpty(s[1..]);
      assert forall i :: 1 <= i < |s| ==> s[i] == s[1..][i - 1];
      if HasDigit(s[1..]) {
        var i :| 0 <= i < |s[1..]| && IsDigit(s[1..][i]);
        assert IsDigit(s[i + 1]);
      }
    }
  }

  /** The rules in the order the submit handler checks them: a blank
      cardholder name, no digits in the card number, a failed card-number
      check, a bad or past expiry, a CVV that is not 3 or 4 digits. */
  const RuleOrder: seq<PaymentError> :=
    [InvalidCardholderName, InvalidCardNumberFormat, InvalidCardNumberChecksum, InvalidOrExpiredDate, InvalidCvv]

  lemma RuleOrderRanks()
    ensures |RuleOrder| == 5
    ensures forall rule :: RuleOrder[Rank(rule)] == rule
    ensures forall i :: 0 <= i < |RuleOrder| ==> Rank(RuleOrder[i]) == i
  {
  }

  /** The first rule of `rules` that fails, or acceptance when none does. */
  function FirstFailing(rules: seq<PaymentError>, f: FormData, today: Today): SubmitOutcome
  {
    if rules == [] then Accepted
    else if !Passes(f, today, rules[0]) then Rejected(rules[0])
    else FirstFailing(rules[1..], f, today)
  }

  /** The submit handler's decision: the first rule in chain order that fails. */
  function CheckSubmission(f: FormData, today: Today): SubmitOutcome
  {
    FirstFailing(RuleOrder, f, today)
  }

  lemma {:induction false} FirstFailingSpec(rules: seq<PaymentError>, f: FormData, today: Today)
    ensures FirstFailing(rules, f, today).Accepted? <==>
      forall i :: 0 <= i < |rules| ==> Passes(f, today, rules[i])
    ensures FirstFailing(rules, f, today).Rejected? ==>
      exists k :: 0 <= k < |rules| && rules[k] == FirstFailing(rules, f, today).error
        && !Passes(f, today, rules[k])
        && forall i :: 0 <= i < k ==> Passes(f, today, rules[i])
  {
    if rules != [] && Passes(f, today, rules[0]) {
      FirstFailingSpec(rules[1..], f, today);
      assert forall i :: 1 <= i < |rules| ==> rules[i] == rules[1..][i - 1];
      if FirstFailing(rules, f, today).Rejected? {
        var k :| 0 <= k < |rules[1..]| && rules[1..][k] == FirstFailing(rules, f, today).error
          && !Passes(f, today, rules[1..][k])
          && forall i :: 0 <= i < k ==> Passes(f, today, rules[1..][i]);
        assert rules[k + 1] == rules[1..][k];
      }
    }
  }

  /** The decision unfolded rule by rule, in chain order. */
  lemma CheckSubmissionInOrder(f: FormData, today: Today)
    ensures CheckSubmission(f, today) ==
      if !NameGiven(f.cardName) then Rejected(InvalidCardholderName)
      else if !HasDigit(f.cardNumber) then Rejected(InvalidCardNumberFormat)
      else if !CardNumberValid(f.cardNumber) then Rejected(InvalidCardNumberChecksum)
      else if !ExpiryValid(f.expiry, today) then Rejected(InvalidOrExpiredDate)
      else if !CvvWellFormed(f.cvv) then Rejected(InvalidCvv)
      else Accepted
  {
    var r4 := [InvalidCvv];
    var r3 := [InvalidOrExpiredDate] + r4;
    var r2 := [InvalidCardNumberChecksum] + r3;
    var r1 := [InvalidCardNumberFormat] + r2;
    assert RuleOrder == [InvalidCardholderName] + r1;
    assert r4[1..] == [] && r3[1..] == r4 && r2[1..] == r3 && r1[1..] == r2 && RuleOrder[1..] == r1;
    assert FirstFailing(r4, f, today) == if !CvvWellFormed(f.cvv) then Rejected(InvalidCvv) else Accepted;
    assert FirstFailing(r3, f, today)
        == if !ExpiryValid(f.expiry, today) then Rejected(InvalidOrExpiredDate) else FirstFailing(r4, f, today);
    assert FirstFailing(r2, f, today)
        == if !CardNumberValid(f.cardNumber) then Rejected(InvalidCardNumberChecksum) else FirstFailing(r3, f, today);
    assert FirstFailing(r1, f, today)
        == if !HasDigit(f.cardNumber) then Rejected(InvalidCardNumberFormat) else FirstFailing(r2, f, today);
  }

  /** A submission is accepted iff every rule passes, and otherwise reports
      the first rule, in chain order, that fails. */
  lemma CheckSubmissionFirstFailing(f: FormData, today: Today)
    ensures CheckSubmission(f, today).Accepted? <==> forall rule :: Passes(f, today, rule)
    ensures CheckSubmission(f, today).Rejected? ==>
      && !Passes(f, today, CheckSubmission(f, today).error)
      && forall rule :: Rank(rule) < Rank(CheckSubmission(f, today).error) ==> Passes(f, today, rule)
  {
    RuleOrderRanks();
    FirstFailingSpec(RuleOrder, f, today);
    if CheckSubmission(f, today).Accepted? {
      forall rule ensures Passes(f, today, rule) {
        assert RuleOrder[Rank(rule)] == rule;
      }
    }
    if CheckSubmission(f, today).Rejected? {
      var k :| 0 <= k < |RuleOrder| && RuleOrder[k] == CheckSubmission(f, today).error
        && !Passes(f, today, RuleOrder[k])
        && forall i :: 0 <= i < k ==> Passes(f, today, RuleOrder[i]);
      forall rule | Rank(rule) < Rank(CheckSubmission(f, today).error) ensures Passes(f, today, rule) {
        assert RuleOrder[Rank(rule)] == rule;
      }
    }
  }

  /** When every rule passes, the submission is accepted. */
  lemma AcceptedWhenAllPass(f: FormData, today: Today)
    requires NameGiven(f.cardName) && HasDigit(f.cardNumber) && CardNumberValid(f.cardNumber)
    requires ExpiryValid(f.expiry, today) && CvvWellFormed(f.cvv)
    ensures CheckSubmission(f, today) == Accepted
  {
    CheckSubmissionFirstFailing(f, today);
  }

  /** An accepted submission has a non-blank name, 13 to 19 card digits
      passing the Luhn check, an `MM/YY` expiry with a month from 1 to 12,
      and a 3- or 4-digit CVV. */
  lemma AcceptedSubmissionWellFormed(f: FormData, today: Today)
    requires CheckSubmission(f, today).Accepted?
    ensures NameGiven(f.cardName)
    ensures 13 <= |StripSpaces(f.cardNumber)| <= 19 && AllDigits(StripSpaces(f.cardNumber))
    ensures LuhnSum(StripSpaces(f.cardNumber)) % 10 == 0
    ensures ExpiryShape(f.expiry) && 1 <= ExpiryMonth(f.expiry) <= 12
    ensures 3 <= |f.cvv| <= 4 && AllDigits(f.cvv)
  {
    CheckSubmissionFirstFailing(f, today);
    assert Passes(f, today, InvalidCardNumberChecksum);
    assert Passes(f, today, InvalidOrExpiredDate);
    assert Passes(f, today, InvalidCvv);
    assert Passes(f, today, InvalidCardholderName);
    ExpiryValidCharacterization(f.expiry, today);
  }

  /** The deferred callback that is scheduled, if any. */
  datatype Timer = NoTimer | ConfirmationTimer | ResetTimer

  /** What the expiry field can hold after its filter: up to two digits
      before the `/` appears, then `MM/` followed by up to two digits. */
  predicate ExpiryInputShape(e: string)
  {
    if |e| >= 3 then |e| <= 5 && e[2] == '/' && forall i :: 0 <= i < |e| && i != 2 ==> IsDigit(e[i])
    else |e| < 2 && AllDigits(e)
  }

  /** `!cardName.trim()`: the trimmed name is empty exactly when no
      character is other than whitespace. */
  lemma TrimEmptyIffBlank(name: string)
    ensures Trim(name) == "" <==> !NameGiven(name)
  {
    if !NameGiven(name) {
      assert forall i :: 0 <= i < |name| ==> IsSpace(name[i]);
    }
  }

  /** The checks `handleSubmit` runs, in order, stopping at the first
      failure. */
  method ValidateSubmission(f: FormData, today: Today) returns (outcome: SubmitOutcome)
    ensures outcome == CheckSubmission(f, today)
  {
    CheckSubmissionInOrder(f, today);
    TrimEmptyIffBlank(f.cardName);
    DigitsOnlyEmpty(f.cardNumber);
    if Trim(f.cardName) == "" {
      return Rejected(InvalidCardholderName);
    }
    var cleanedCardNumber := DigitsOnly(f.cardNumber);
    if cleanedCardNumber == "" || !AllDigits(cleanedCardNumber) {
      return Rejected(InvalidCardNumberFormat);
    }
    var cardNumberOk := ValidateCardNumber(f.cardNumber);
    if !cardNumberOk {
      return Rejected(InvalidCardNumberChecksum);
    }
    if !ExpiryValid(f.expiry, today) {
      return Rejected(InvalidOrExpiredDate);
    }
    var cvv := f.cvv;
    if |cvv| < 3 || |cvv| > 4 || !(|cvv| > 0 && AllDigits(cvv)) {
      return Rejected(InvalidCvv);
    }
    outcome := Accepted;
  }

  class PaymentForm {
    var formData: FormData
    var displayCardNumber: string
    var isPaid: bool
    var pending: Timer

    /** The field invariants the input filters keep: digits only in the card
        number (at most 19) and in the CVV (at most 4), the display value is the
        card number in blocks of four, the expiry is partially `MM/YY`, and
        a deferred callback is pending exactly while the payment shows as paid. */
    ghost predicate Valid()
      reads this
    {
      && AllDigits(formData.cardNumber) && |formData.cardNumber| <= 19
      && displayCardNumber == GroupFour(formData.cardNumber)
      && AllDigits(formData.cvv) && |formData.cvv| <= 4
      && ExpiryInputShape(formData.expiry)
      && (isPaid <==> pending != NoTimer)
    }

    constructor ()
      ensures Valid()
      ensures formData == EmptyForm && displayCardNumber == "" && !isPaid && pending == NoTimer
    {
      formData := EmptyForm;
      displayCardNumber := "";
      isPaid := false;
      pending := NoTimer;
    }

    /** Typing into the cardholder-name field stores the text as typed. */
    method ChangeCardName(value: string)
      requires Valid()
      modifies this`formData
      ensures Valid()
      ensures formData == old(formData).(cardName := value)
    {
      formData := formData.(cardName := value);
    }

    /** Typing into the card-number field stores the first 19 digits and
        shows them in blocks of four. */
    method ChangeCardNumber(value: string)
      requires Valid()
      modifies this`formData, this`displayCardNumber
      ensures Valid()
      ensures formData == old(formData).(cardNumber := CardNumberInput(value))
      ensures displayCardNumber == GroupFour(CardNumberInput(value))
      ensures DigitsOnly(displayCardNumber) == formData.cardNumber
    {
      var limited := CardNumberInput(value);
      formData := formData.(cardNumber := limited);
      displayCardNumber := GroupFour(limited);
      GroupFourRoundTrip(limited);
    }

    /** Typing into the expiry field stores the formatted value. */
    method ChangeExpiry(value: string)
      requires Valid()
      modifies this`formData
      ensures Valid()
      ensures formData == old(formData).(expiry := FormatExpiry(value))
    {
      formData := formData.(expiry := FormatExpiry(value));
    }

    /** Typing into the CVV field keeps at most four digits. */
    method ChangeCvv(value: string)
      requires Valid()
      modifies this`formData
      ensures Valid()
      ensures formData == old(formData).(cvv := CvvInput(value))
    {
      formData := formData.(cvv := CvvInput(value));
    }

    /** The submit handler. The form is only shown while the payment is not
        marked paid, so it cannot run while a payment is in progress. On any
        failure nothing changes; on success the payment is marked paid and the
        confirmation callback is scheduled. */
    method Submit(today: Today) returns (outcome: SubmitOutcome)
      requires Valid() && !isPaid
      modifies this`isPaid, this`pending
      ensures Valid()
      ensures outcome == CheckSubmission(formData, today)
      ensures isPaid == outcome.Accepted?
      ensures pending == if outcome.Accepted? then ConfirmationTimer else NoTimer
    {
      outcome := ValidateSubmission(formData, today);
      if outcome.Accepted? {
        isPaid := true;
        pending := ConfirmationTimer;
      }
    }

    /** The first deferred callback: it announces the confirmed reservation
        and schedules the reset. When no confirmation is pending it does nothing. */
    method FireConfirmation() returns (confirmed: bool)
      requires Valid()
      modifies this`pending
      ensures Valid()
      ensures confirmed == (old(pending) == ConfirmationTimer)
      ensures pending == if confirmed then ResetTimer else old(pending)
    {
      confirmed := pending == ConfirmationTimer;
      if confirmed {
        pending := ResetTimer;
      }
    }

    /** The second deferred callback: it clears the paid flag, all four fields
        and the displayed card number, and asks the owner to close the dialog.
        When no reset is pending it does nothing, so a second call is harmless. */
    method FireReset() returns (closeDialog: bool)
      requires Valid()
      modifies this
      ensures Valid()
      ensures closeDialog == (old(pending) == ResetTimer)
      ensures closeDialog ==>
        formData == EmptyForm && displayCardNumber == "" && !isPaid && pending == NoTimer
      ensures !closeDialog ==> unchanged(this)
    {
      closeDialog := pending == ResetTimer;
      if closeDialog {
        isPaid := false;
        formData := EmptyForm;
        displayCardNumber := "";
        pending := NoTimer;
      }
    }

    /** The card line of the receipt shown while the payment is marked paid. */
    function ReceiptCard(): (shown: string)
      reads this
      requires Valid()
      ensures DigitsOnly(shown)
           == if |formData.cardNumber| >= 4 then formData.cardNumber[|formData.cardNumber| - 4..] else []
    {
      MaskedCardRevealsLastFour(formData.cardNumber);
      MaskedCard(formData.cardNumber)
    }
  }

  /** Each rule passes on the example reservation: cardholder Jane Doe,
      card 4532015112830366, expiry 12/30 and CVV 123, in April 2025. */
  lemma ExampleRulePasses(f: FormData, today: Today, rule: PaymentError)
    requires f == FormData("4532015112830366", "Jane Doe", "12/30", "123")
    requires today == Today(2025, 4)
    ensures Passes(f, today, rule)
  {
    match rule
    case InvalidCardholderName => assert !IsSpace(f.cardName[0]);
    case InvalidCardNumberFormat => assert IsDigit(f.cardNumber[0]);
    case InvalidCardNumberChecksum => LuhnAcceptsTestNumber(f.cardNumber);
    case InvalidOrExpiredDate => ExampleExpiryValid(f.expiry, today);
    case InvalidCvv =>
  }

  /** The example reservation is accepted. */
  lemma ExampleAccepted(f: FormData, today: Today)
    requires f == FormData("4532015112830366", "Jane Doe", "12/30", "123")
    requires today == Today(2025, 4)
    ensures CheckSubmission(f, today) == Accepted
  {
    forall rule | true
      ensures Passes(f, today, rule)
    {
      ExampleRulePasses(f, today, rule);
    }
    CheckSubmissionFirstFailing(f, today);
  }

  /** The example reservation on an open form whose name, expiry and CVV
      are filled in: typing the card number in four blocks stores its digits,
      the payment is accepted and confirmed, the reset leaves an empty,
      unpaid form and closes the dialog, and a second reset does not close it
      again. */
  method ReservationScenario(form: PaymentForm, typed: string, today: Today)
      returns (outcome: SubmitOutcome, confirmed: bool, closed: bool, closedAgain: bool)
    requires form.Valid() && !form.isPaid
    requires form.formData.cardName == "Jane Doe" && form.formData.expiry == "12/30" && form.formData.cvv == "123"
    requires typed == "4532 0151 1283 0366"
    requires today == Today(2025, 4)
    modifies form
    ensures outcome == Accepted && confirmed && closed && !closedAgain
    ensures form.Valid() && form.formData == EmptyForm && form.displayCardNumber == "" && !form.isPaid
  {
    ExampleTypedCardNumber(typed);
    form.ChangeCardNumber(typed);
    ExampleAccepted(form.formData, today);
    outcome := form.Submit(today);
    confirmed := form.FireConfirmation();
    closed := form.FireReset();
    closedAgain := form.FireReset();
  }
}
