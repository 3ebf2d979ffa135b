/**
 * The shape of a stored client record, the insert schema that validates
 * new and edited records, and the meaning of the amount strings it admits
 * (shared/schema.ts).
 *
 * Timestamps are milliseconds since the Unix epoch. Money amounts stay
 * strings, as in the source; `Cents` gives their exact value.
 */
module Schema {
  import opened Basics

  /** A timestamp, in milliseconds since the Unix epoch. */
  type Millis = int

  predicate IsDigit(c: char) {
    '0' <= c <= '9'
  }

  predicate AllDigits(s: string) {
    forall i | 0 <= i < |s| :: IsDigit(s[i])
  }

  /**
   * The amount recogniser for `^\d+(\.\d{1,2})?$`: a digit, then whatever
   * `AfterDigit` admits.
   */
  predicate AmountValid(s: string) {
    |s| >= 1 && IsDigit(s[0]) && AfterDigit(s[1..])
  }

  /** What may follow a digit: more digits, the end, or `.` and one or two digits. */
  predicate AfterDigit(t: string)
    decreases |t|
  {
    t == [] ||
    (IsDigit(t[0]) && AfterDigit(t[1..])) ||
    (t[0] == '.' && (|t| == 2 || |t| == 3) && AllDigits(t[1..]))
  }

  /** An amount string that the insert schema accepts. */
  type Amount = s: string | AmountValid(s) witness "0"

  /** The regular expression with its split point made explicit: `k` digits, then the optional fraction. */
  predicate SplitAt(s: string, k: int) {
    1 <= k <= |s| && AllDigits(s[..k]) &&
    (k == |s| || (s[k] == '.' && (|s| - k == 2 || |s| - k == 3) && AllDigits(s[k + 1..])))
  }

  /** The regular expression read as a set of strings: digits, then optionally a dot and one or two digits. */
  ghost predicate MatchesPattern(s: string) {
    exists k :: SplitAt(s, k)
  }

  /** Position of the first `.` in `s`, or `|s|` when there is none. */
  function DotPos(s: string): (k: nat)
    ensures k <= |s|
    ensures forall i | 0 <= i < k :: s[i] != '.'
    ensures k < |s| ==> s[k] == '.'
  {
    if s == [] || s[0] == '.' then 0 else 1 + DotPos(s[1..])
  }

  /** After a digit, the recogniser accepts exactly: digits up to the dot, and one or two digits after it. */
  predicate SplitsAtDot(t: string) {
    var k := DotPos(t);
    AllDigits(t[..k]) && (k == |t| || ((|t| - k == 2 || |t| - k == 3) && AllDigits(t[k + 1..])))
  }

  lemma {:induction false} AfterDigitSplits(t: string)
    ensures AfterDigit(t) <==> SplitsAtDot(t)
    decreases |t|
  {
    if t == [] || t[0] == '.' {
    } else {
      var k := DotPos(t);
      var u := t[1..];
      AfterDigitSplits(u);
      assert DotPos(u) == k - 1;
      assert t[..k] == [t[0]] + u[..k - 1];
      if k < |t| {
        assert t[k + 1..] == u[k..];
      }
      if !IsDigit(t[0]) {
        assert !AllDigits(t[..k]) by { assert t[..k][0] == t[0]; }
      }
    }
  }

  /** A split point of the pattern can only be the position of the dot (or the end). */
  lemma SplitIsAtDot(s: string, k: int)
    requires SplitAt(s, k)
    ensures k == DotPos(s)
  {
    forall i | 0 <= i < k ensures s[i] != '.' {
      assert s[..k][i] == s[i];
    }
  }

  /** The recogniser accepts exactly the strings that split at their dot. */
  lemma AmountValidSplits(s: string)
    ensures AmountValid(s) <==> SplitAt(s, DotPos(s))
  {
    if s != [] && s[0] != '.' {
      var u := s[1..];
      var k := DotPos(s);
      AfterDigitSplits(u);
      assert DotPos(u) == k - 1;
      assert s[..k] == [s[0]] + u[..k - 1];
      if k < |s| {
        assert s[k + 1..] == u[k..];
      }
      if SplitAt(s, k) {
        assert s[..k][0] == s[0];
      }
    }
  }

  /** The recursive recogniser accepts exactly the strings the regular expression matches. */
  /**
   * An accepted amount starts and ends with a digit, and every non-empty
   * run of digits is accepted.
   */
  lemma AmountValidEnds(s: string)
    ensures AmountValid(s) ==> |s| >= 1 && IsDigit(s[0]) && IsDigit(s[|s| - 1])
    ensures s != [] && AllDigits(s) ==> AmountValid(s)
  {
    if s != [] {
      AfterDigitEnds(s[1..]);
      if AmountValid(s) && |s| > 1 {
        assert s[1..][|s| - 2] == s[|s| - 1];
      }
      if AllDigits(s) {
        assert AllDigits(s[1..]) by {
          forall i | 0 <= i < |s| - 1 ensures IsDigit(s[1..][i]) {
            assert s[1..][i] == s[i + 1];
          }
        }
      }
    }
  }

  lemma {:induction false} AfterDigitEnds(t: string)
    ensures AfterDigit(t) && t != [] ==> IsDigit(t[|t| - 1])
    ensures AllDigits(t) ==> AfterDigit(t)
    decreases |t|
  {
    if t != [] {
      AfterDigitEnds(t[1..]);
      if |t| > 1 {
        assert t[1..][|t| - 2] == t[|t| - 1];
      }
      if AllDigits(t) {
        assert AllDigits(t[1..]) by {
          forall i | 0 <= i < |t| - 1 ensures IsDigit(t[1..][i]) {
            assert t[1..][i] == t[i + 1];
          }
        }
      }
    }
  }

  lemma AmountValidIffPattern(s: string)
    ensures AmountValid(s) <==> MatchesPattern(s)
  {
    AmountValidSplits(s);
    if MatchesPattern(s) {
      var k :| SplitAt(s, k);
      SplitIsAtDot(s, k);
    }
  }

  /** The part of an amount before the dot. */
  function IntPart(a: Amount): string {
    a[..DotPos(a)]
  }

  /** The one or two digits after the dot, or "" when there is no dot. */
  function FracPart(a: Amount): string {
    var k := DotPos(a);
    if k < |a| then a[k + 1..] else ""
  }

  lemma AmountShape(a: Amount)
    ensures 1 <= |IntPart(a)| && AllDigits(IntPart(a))
    ensures |FracPart(a)| <= 2 && AllDigits(FracPart(a))
    ensures DotPos(a) < |a| <==> FracPart(a) != ""
  {
    AfterDigitSplits(a[1..]);
    var k := DotPos(a);
    assert DotPos(a[1..]) == k - 1;
    assert a[..k] == [a[0]] + a[1..][..k - 1];
    if k < |a| {
      assert a[k + 1..] == a[1..][k..];
    }
  }

  function DigitValue(c: char): nat
    requires IsDigit(c)
  {
    (c as int) - ('0' as int)
  }

  /** The natural number a string of decimal digits denotes. */
  function DigitsValue(s: string): nat
    requires AllDigits(s)
  {
    if s == [] then 0 else DigitsValue(s[..|s| - 1]) * 10 + DigitValue(s[|s| - 1])
  }

  function Pow10(n: nat): nat {
    if n == 0 then 1 else 10 * Pow10(n - 1)
  }

  /**
   * The value of an amount in cents. The schema admits at most two
   * fractional digits, so this is exact: see `CentsAreExact`.
   */
  function Cents(a: Amount): nat {
    AmountShape(a);
    DigitsValue(IntPart(a)) * 100 + DigitsValue(FracPart(a)) * Pow10(2 - |FracPart(a)|)
  }

  /** An amount is worth its integer part in whole units, plus less than one unit. */
  lemma CentsBounds(a: Amount)
    ensures AllDigits(IntPart(a))
    ensures DigitsValue(IntPart(a)) * 100 <= Cents(a) < DigitsValue(IntPart(a)) * 100 + 100
  {
    AmountShape(a);
    FractionBelowUnit(FracPart(a));
  }

  /** One or two fractional digits are worth less than one whole unit. */
  lemma FractionBelowUnit(f: string)
    requires AllDigits(f) && |f| <= 2
    ensures DigitsValue(f) * Pow10(2 - |f|) < 100
  {
    DigitsBelowPow10(f);
    if |f| == 1 {
      assert Pow10(1) == 10;
    } else if |f| == 2 {
      assert Pow10(2) == 100;
    }
  }

  /** `n` decimal digits denote a number below `10^n`. */
  lemma {:induction false} DigitsBelowPow10(s: string)
    requires AllDigits(s)
    ensures DigitsValue(s) < Pow10(|s|)
  {
    if s != [] {
      var init := s[..|s| - 1];
      assert AllDigits(init) by {
        forall i | 0 <= i < |init| ensures IsDigit(init[i]) {
          assert init[i] == s[i];
        }
      }
      DigitsBelowPow10(init);
    }
  }

  /** An amount without a dot is a whole number of units. */
  lemma CentsOfWhole(a: Amount)
    requires AllDigits(a)
    ensures Cents(a) == DigitsValue(a) * 100
  {
    assert a[..|a|] == a;
  }

  /** An amount `i.f` is worth `i` units and `f` read as hundredths. */
  lemma CentsOfSplit(a: Amount, i: string, f: string)
    requires a == i + "." + f && AllDigits(i) && AllDigits(f) && |f| <= 2
    ensures Cents(a) == DigitsValue(i) * 100 + DigitsValue(f) * Pow10(2 - |f|)
  {
    assert a[|i|] == '.';
    assert forall j | 0 <= j < |i| :: a[j] == i[j];
    var k := DotPos(a);
    assert a[..k] == i && a[k + 1..] == f;
  }

  lemma {:induction false} DigitsValueAppend(x: string, y: string)
    requires AllDigits(x) && AllDigits(y)
    ensures AllDigits(x + y)
    ensures DigitsValue(x + y) == DigitsValue(x) * Pow10(|y|) + DigitsValue(y)
    decreases |y|
  {
    AllDigitsAppend(x, y);
    if y == [] {
      assert x + y == x;
    } else {
      var y' := y[..|y| - 1];
      var d := DigitValue(y[|y| - 1]);
      assert (x + y)[..|x + y| - 1] == x + y';
      assert AllDigits(y');
      DigitsValueAppend(x, y');
      var a, p, b := DigitsValue(x), Pow10(|y'|), DigitsValue(y');
      assert DigitsValue(x + y) == DigitsValue(x + y') * 10 + d;
      assert Pow10(|y|) == p * 10;
      ShiftDigit(a, p, b, d);
    }
  }

  lemma AllDigitsAppend(x: string, y: string)
    requires AllDigits(x) && AllDigits(y)
    ensures AllDigits(x + y)
  {
    forall i | 0 <= i < |x + y| ensures IsDigit((x + y)[i]) {
      if i >= |x| { assert (x + y)[i] == y[i - |x|]; }
    }
  }

  /** Appending a digit to `b` shifts `a`'s contribution one place further. */
  lemma ShiftDigit(a: int, p: int, b: int, d: int)
    ensures (a * p + b) * 10 + d == a * (p * 10) + (b * 10 + d)
  {
  }

  /**
   * Every accepted amount is a whole number of cents: its decimal value,
   * the digits read as one number D over 10^(fraction length), times 100,
   * is exactly `Cents`. Integer cents are therefore a faithful stand-in for
   * the amount strings.
   */
  lemma CentsAreExact(a: Amount)
    ensures AllDigits(IntPart(a) + FracPart(a))
    ensures Cents(a) * Pow10(|FracPart(a)|) == DigitsValue(IntPart(a) + FracPart(a)) * 100
  {
    AmountShape(a);
    var i, f := IntPart(a), FracPart(a);
    var n := |f|;
    DigitsValueAppend(i, f);
    var p, q := Pow10(2 - n), Pow10(n);
    assert p * q == 100 by {
      assert n == 0 || n == 1 || n == 2;
    }
    assert Cents(a) == DigitsValue(i) * 100 + DigitsValue(f) * p;
    assert DigitsValue(i + f) == DigitsValue(i) * q + DigitsValue(f);
    ScaleCents(DigitsValue(i), DigitsValue(f), p, q);
  }

  /** Scaling whole units and a fraction `w / q` by `q` gives whole hundredths. */
  lemma ScaleCents(v: int, w: int, p: int, q: int)
    requires p * q == 100
    ensures (v * 100 + w * p) * q == (v * q + w) * 100
  {
    calc {
      (v * 100 + w * p) * q;
      v * 100 * q + w * (p * q);
      (v * q + w) * 100;
    }
  }

  /** Strings the schema rejects and accepts. */
  lemma AmountExamples()
    ensures !AmountValid("") && !AmountValid(".5") && !AmountValid("5.")
    ensures !AmountValid("5.123") && !AmountValid("-1") && !AmountValid("1,000")
    ensures AmountValid("0") && AmountValid("5.5") && AmountValid("2500.00")
  {
    assert !AfterDigit(".123");
    assert !AfterDigit(",000");
    assert AfterDigit(".5");
    assert AfterDigit("500.00") by {
      assert AfterDigit("00.00") by { assert AfterDigit("0.00"); }
    }
  }

  // ---------------------------------------------------------------------
  // Record shapes

  /**
   * A row of the `clients` table. The four contact columns are NOT NULL;
   * the dates, the review count and the notes may be null. Amounts are
   * null or a decimal string the insert schema accepted.
   */
  datatype Client = Client(
    id: string,
    clientName: string,
    email: string,
    phoneNumber: string,
    billingAddress: string,
    testAdCallDate: Option<Millis>,
    reviewsOrdered: Option<int>,
    amountPaidOnCall: Option<Amount>,
    nextMonthAgreedPayment: Option<Amount>,
    dateOfNextContact: Option<Millis>,
    dateCommissionsDue: Option<Millis>,
    notes: Option<string>)

  /**
   * The insert schema's output: every column but `id` (which the store
   * generates). The two amounts are required and pattern-valid; the
   * nullable and defaulted columns may be left out.
   */
  datatype InsertClient = InsertClient(
    clientName: string,
    email: string,
    phoneNumber: string,
    billingAddress: string,
    testAdCallDate: Field<Option<Millis>>,
    reviewsOrdered: Field<Option<int>>,
    amountPaidOnCall: Amount,
    nextMonthAgreedPayment: Amount,
    dateOfNextContact: Field<Option<Millis>>,
    dateCommissionsDue: Field<Option<Millis>>,
    notes: Field<Option<string>>)

  /** The same fields before validation: the amounts are whatever was typed. */
  datatype InsertDraft = InsertDraft(
    clientName: string,
    email: string,
    phoneNumber: string,
    billingAddress: string,
    testAdCallDate: Field<Option<Millis>>,
    reviewsOrdered: Field<Option<int>>,
    amountPaidOnCall: string,
    nextMonthAgreedPayment: string,
    dateOfNextContact: Field<Option<Millis>>,
    dateCommissionsDue: Field<Option<Millis>>,
    notes: Field<Option<string>>)

  datatype FieldError = FieldError(field: string, message: string)

  const AmountMessage := "Invalid amount format"

  /** Column defaults. */
  const DefaultReviews := 0
  const DefaultAmount: Amount := "0.00"

  /**
   * `insertClientSchema` applied to a draft: it fails with one error per
   * amount that does not match the pattern, naming the field, and
   * otherwise passes every field through unchanged.
   */
  function ParseInsert(d: InsertDraft): (r: Result<InsertClient, seq<FieldError>>)
    ensures r.Ok? <==> AmountValid(d.amountPaidOnCall) && AmountValid(d.nextMonthAgreedPayment)
    ensures r.Ok? ==> (
      && r.value.amountPaidOnCall == d.amountPaidOnCall
      && r.value.nextMonthAgreedPayment == d.nextMonthAgreedPayment
      && r.value.clientName == d.clientName && r.value.email == d.email
      && r.value.phoneNumber == d.phoneNumber && r.value.billingAddress == d.billingAddress
      && r.value.testAdCallDate == d.testAdCallDate && r.value.reviewsOrdered == d.reviewsOrdered
      && r.value.dateOfNextContact == d.dateOfNextContact
      && r.value.dateCommissionsDue == d.dateCommissionsDue && r.value.notes == d.notes)
    ensures r.Err? ==> forall e | e in r.error ::
                         e.message == AmountMessage &&
                         ((e.field == "amountPaidOnCall" && !AmountValid(d.amountPaidOnCall)) ||
                          (e.field == "nextMonthAgreedPayment" && !AmountValid(d.nextMonthAgreedPayment)))
    ensures r.Err? ==> (
      && (!AmountValid(d.amountPaidOnCall) ==> FieldError("amountPaidOnCall", AmountMessage) in r.error)
      && (!AmountValid(d.nextMonthAgreedPayment) ==> FieldError("nextMonthAgreedPayment", AmountMessage) in r.error))
  {
    var errors :=
      (if AmountValid(d.amountPaidOnCall) then [] else [FieldError("amountPaidOnCall", AmountMessage)]) +
      (if AmountValid(d.nextMonthAgreedPayment) then [] else [FieldError("nextMonthAgreedPayment", AmountMessage)]);
    if errors == [] then
      Ok(InsertClient(d.clientName, d.email, d.phoneNumber, d.billingAddress, d.testAdCallDate,
                      d.reviewsOrdered, d.amountPaidOnCall, d.nextMonthAgreedPayment,
                      d.dateOfNextContact, d.dateCommissionsDue, d.notes))
    else
      Err(errors)
  }

  /**
   * The row the database stores for a validated insert: the generated id,
   * every given field as given, and the column default for a left-out
   * review count (null for the other left-out columns).
   */
  function InsertRow(id: string, ins: InsertClient): (c: Client)
    ensures c.id == id && c.clientName == ins.clientName && c.email == ins.email
    ensures c.amountPaidOnCall == Some(ins.amountPaidOnCall)
    ensures c.nextMonthAgreedPayment == Some(ins.nextMonthAgreedPayment)
    ensures ins.reviewsOrdered.Omitted? ==> c.reviewsOrdered == Some(DefaultReviews)
    ensures ins.reviewsOrdered.Given? ==> c.reviewsOrdered == ins.reviewsOrdered.value
    ensures c.phoneNumber == ins.phoneNumber && c.billingAddress == ins.billingAddress
    ensures c.testAdCallDate == if ins.testAdCallDate.Given? then ins.testAdCallDate.value else None
    ensures c.dateOfNextContact == if ins.dateOfNextContact.Given? then ins.dateOfNextContact.value else None
    ensures c.dateCommissionsDue == if ins.dateCommissionsDue.Given? then ins.dateCommissionsDue.value else None
    ensures c.notes == if ins.notes.Given? then ins.notes.value else None
  {
    Client(id, ins.clientName, ins.email, ins.phoneNumber, ins.billingAddress,
           OrNull(ins.testAdCallDate),
           if ins.reviewsOrdered.Omitted? then Some(DefaultReviews) else ins.reviewsOrdered.value,
           Some(ins.amountPaidOnCall), Some(ins.nextMonthAgreedPayment),
           OrNull(ins.dateOfNextContact), OrNull(ins.dateCommissionsDue), OrNull(ins.notes))
  }

  /** A left-out key reads as `undefined`, which the model treats as null. */
  function OrNull<T>(f: Field<Option<T>>): Option<T> {
    if f.Given? then f.value else None
  }

  /** The column default for both amounts is itself an accepted amount worth nothing. */
  lemma DefaultAmountIsZero()
    ensures AmountValid(DefaultAmount) && Cents(DefaultAmount) == 0
  {
    assert IntPart(DefaultAmount) == "0";
    assert FracPart(DefaultAmount) == "00";
    assert DigitsValue("00") == 0 by { assert "00"[..1] == "0"; }
  }
}
