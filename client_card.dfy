/**
 * What one client card shows (client/src/components/ClientCard.tsx): the
 * money amounts as `$` and two decimals, the colour of the two date
 * badges, the review count, and the notes, cut at 100 UTF-16 code units
 * as JavaScript's `length` and `substring` count them.
 */
module ClientCard {
  import opened Basics
  import opened Schema
  import ClientList

  // ---------------------------------------------------------------------
  // Date badges

  /**
   * The card's own copy of `getDateStatus`: the whole days until the date,
   * rounded up, classify it.
   */
  function CardDateStatus(date: Option<Millis>, now: Millis): (r: ClientList.DateStatus)
    ensures r == ClientList.GetDateStatus(date, now)
  {
    if date.None? then ClientList.Neutral
    else
      var diffDays := ClientList.CeilDiv(date.value - now, ClientList.DayMs);
      if diffDays < 0 then ClientList.Overdue
      else if diffDays <= 7 then ClientList.DueSoon
      else ClientList.Upcoming
  }

  datatype BadgeVariant = Destructive | Default | Secondary

  /** `getStatusColor`: overdue is destructive, due soon the default colour, anything else secondary. */
  function StatusColor(status: ClientList.DateStatus): (r: BadgeVariant)
    ensures r == Destructive <==> status == ClientList.Overdue
    ensures r == Default <==> status == ClientList.DueSoon
    ensures r == Secondary <==> status == ClientList.Upcoming || status == ClientList.Neutral
  {
    match status
    case Overdue => Destructive
    case DueSoon => Default
    case _ => Secondary
  }

  /** The variant of a date badge, as the card computes it. */
  function BadgeFor(date: Option<Millis>, now: Millis): (r: BadgeVariant)
    ensures r == StatusColor(ClientList.GetDateStatus(date, now))
  {
    StatusColor(CardDateStatus(date, now))
  }

  /**
   * The badge colour in milliseconds: destructive once the date is a full
   * day or more in the past, the default colour up to seven days ahead
   * (including the day just passed), and secondary for a missing date or
   * a date further away.
   */
  lemma BadgeInMillis(date: Option<Millis>, now: Millis)
    ensures BadgeFor(date, now) == Destructive <==>
      date.Some? && date.value <= now - ClientList.DayMs
    ensures BadgeFor(date, now) == Default <==>
      date.Some? && now - ClientList.DayMs < date.value <= now + 7 * ClientList.DayMs
    ensures BadgeFor(date, now) == Secondary <==>
      date.None? || date.value > now + 7 * ClientList.DayMs
  {
    var s := CardDateStatus(date, now);
    assert s == ClientList.GetDateStatus(date, now);
  }

  // ---------------------------------------------------------------------
  // Money

  function DigitChar(d: nat): (c: char)
    requires d < 10
    ensures IsDigit(c) && DigitValue(c) == d
  {
    ('0' as int + d) as char
  }

  /** The decimal numeral of `n`, without leading zeros. */
  function NatToString(n: nat): (r: string)
    ensures |r| >= 1
  {
    if n < 10 then [DigitChar(n)] else NatToString(n / 10) + [DigitChar(n % 10)]
  }

  /** The numeral is a non-empty string of digits, starts with `0` only for zero, and denotes `n`. */
  lemma {:induction false} NatToStringDigits(n: nat)
    ensures |NatToString(n)| >= 1 && AllDigits(NatToString(n))
    ensures DigitsValue(NatToString(n)) == n
    ensures NatToString(n)[0] == '0' ==> n == 0
  {
    if n >= 10 {
      NatToStringDigits(n / 10);
      var p := NatToString(n / 10);
      var s := p + [DigitChar(n % 10)];
      assert s[..|s| - 1] == p;
      assert s[0] == p[0];
    }
  }

  /** A whole number of cents written as `toFixed(2)` writes it: units, a dot, two digits. */
  function RenderCents(c: nat): (r: string)
    ensures |r| >= 4 && r[|r| - 3] == '.'
    ensures IsDigit(r[|r| - 2]) && DigitValue(r[|r| - 2]) == c % 100 / 10
    ensures IsDigit(r[|r| - 1]) && DigitValue(r[|r| - 1]) == c % 10
  {
    NatToString(c / 100) + "." + [DigitChar(c % 100 / 10), DigitChar(c % 100 % 10)]
  }

  /** The rendering is an amount the schema accepts, has two decimals, and denotes `c` cents exactly. */
  lemma RenderCentsValid(c: nat)
    ensures AmountValid(RenderCents(c))
    ensures |FracPart(RenderCents(c))| == 2
    ensures Cents(RenderCents(c)) == c
  {
    NatToStringDigits(c / 100);
    var i := NatToString(c / 100);
    var f := [DigitChar(c % 100 / 10), DigitChar(c % 100 % 10)];
    var t := RenderCents(c);
    assert t == i + "." + f;
    assert t[..|i|] == i;
    assert t[|i| + 1..] == f;
    assert SplitAt(t, |i|);
    SplitIsAtDot(t, |i|);
    AmountValidSplits(t);
    var a: Amount := t;
    assert IntPart(a) == i;
    assert FracPart(a) == f;
    var m := c % 100;
    assert f[..1] == [f[0]] && f[..1][..0] == [];
    assert DigitsValue(f[..1]) == m / 10;
    assert DigitsValue(f) == DigitsValue(f[..1]) * 10 + m % 10;
    assert m / 10 * 10 + m % 10 == m;
  }

  /**
   * `formatCurrency`: a missing amount shows `$0.00`; otherwise the amount
   * is parsed and written with exactly two decimals. The schema admits at
   * most two decimals and the amount is read as exact integer cents here,
   * so the figure is the stored value to the cent. (`parseFloat` keeps the
   * cent only for amounts below 2^46 units; the model does not follow the
   * double rounding above that.)
   */
  function FormatCurrency(amount: Option<Amount>): (r: string)
    ensures |r| >= 5 && r[0] == '$'
    ensures AmountValid(r[1..]) && |FracPart(r[1..])| == 2
    ensures Cents(r[1..]) == if amount.None? then 0 else Cents(amount.value)
  {
    var c := if amount.None? then 0 else Cents(amount.value);
    RenderCentsValid(c);
    var r := "$" + RenderCents(c);
    assert r[1..] == RenderCents(c);
    r
  }

  /** Formatting is stable: the figure shown, read back as an amount, formats to itself. */
  lemma FormatCurrencyIdempotent(amount: Option<Amount>)
    ensures var r := FormatCurrency(amount);
      AmountValid(r[1..]) && FormatCurrency(Some(r[1..])) == r
  {
    var c := if amount.None? then 0 else Cents(amount.value);
    RenderCentsValid(c);
    assert FormatCurrency(amount) == "$" + RenderCents(c);
  }

  /** Two amounts show the same figure exactly when they are worth the same number of cents. */
  lemma FormatCurrencyInjective(a: Amount, b: Amount)
    ensures FormatCurrency(Some(a)) == FormatCurrency(Some(b)) <==> Cents(a) == Cents(b)
  {
  }

  /** Under ten dollars the figure is one unit digit, a dot and two decimals. */
  lemma RenderSmall(c: nat)
    requires c < 1000
    ensures RenderCents(c) == [DigitChar(c / 100), '.', DigitChar(c % 100 / 10), DigitChar(c % 100 % 10)]
  {
    assert NatToString(c / 100) == [DigitChar(c / 100)];
  }

  /** The figure shown is the rendering of the amount's cents. */
  lemma FormatCurrencyCents(amount: Option<Amount>, c: nat)
    requires c == if amount.None? then 0 else Cents(amount.value)
    ensures FormatCurrency(amount) == "$" + RenderCents(c)
  {
  }

  /** A missing amount shows as zero. */
  lemma FormatMissing()
    ensures FormatCurrency(None) == "$0.00"
  {
    FormatCurrencyCents(None, 0);
    RenderSmall(0);
  }

  /** One decimal gains a trailing zero. */
  lemma FormatOneDecimal()
    ensures FormatCurrency(Some("5.5")) == "$5.50"
  {
    assert AfterDigit(".5");
    var x: Amount := "5.5";
    assert x == "5" + "." + "5";
    CentsOfSplit(x, "5", "5");
    assert DigitsValue("5") == 5 by { assert "5"[..0] == ""; }
    assert Cents(x) == 550;
    FormatCurrencyCents(Some(x), 550);
    RenderSmall(550);
    assert DigitChar(5) == '5' && DigitChar(0) == '0';
  }

  lemma LeadingZerosValue()
    ensures AllDigits("007") && DigitsValue("007") == 7
  {
    assert "0"[..0] == "";
    assert DigitsValue("0") == 0;
    assert "00"[..1] == "0";
    assert DigitsValue("00") == 0;
    assert "007"[..2] == "00";
  }

  /** Leading zeros disappear and two decimals are added. */
  lemma FormatLeadingZeros()
    ensures FormatCurrency(Some("007")) == "$7.00"
  {
    assert AfterDigit("07") by { assert AfterDigit("7"); }
    var y: Amount := "007";
    CentsOfWhole(y);
    LeadingZerosValue();
    assert Cents(y) == 700;
    FormatCurrencyCents(Some(y), 700);
    RenderSmall(700);
    assert DigitChar(7) == '7' && DigitChar(0) == '0';
  }

  // ---------------------------------------------------------------------
  // JavaScript string lengths

  /** A UTF-16 code unit: what JavaScript's `length` counts and `substring` cuts. */
  type CodeUnit = u: int | 0 <= u < 0x1_0000

  /** The UTF-16 encoding of one character: itself below U+10000, otherwise a surrogate pair. */
  function Utf16Char(c: char): (r: seq<CodeUnit>)
    ensures |r| == if (c as int) < 0x1_0000 then 1 else 2
    ensures (c as int) < 0x1_0000 ==> r[0] == c as int
    ensures (c as int) >= 0x1_0000 ==> 0xD800 <= r[0] < 0xDC00 && 0xDC00 <= r[1] < 0xE000
  {
    var v := c as int;
    if v < 0x1_0000 then [v]
    else [0xD800 + (v - 0x1_0000) / 0x400, 0xDC00 + (v - 0x1_0000) % 0x400]
  }

  /** A string as the UTF-16 code units JavaScript holds it in. */
  function Utf16(s: string): (r: seq<CodeUnit>)
    ensures |r| >= |s|
    ensures r == [] <==> s == []
  {
    if s == [] then [] else Utf16Char(s[0]) + Utf16(s[1..])
  }

  /** Every character of `s` lies below U+10000, so it takes one code unit. */
  predicate InBmp(s: string) {
    forall i | 0 <= i < |s| :: (s[i] as int) < 0x1_0000
  }

  /** Encoding a concatenation encodes each part. */
  lemma {:induction false} Utf16Append(a: string, b: string)
    ensures Utf16(a + b) == Utf16(a) + Utf16(b)
  {
    if a == [] {
      assert a + b == b;
    } else {
      assert (a + b)[0] == a[0] && (a + b)[1..] == a[1..] + b;
      Utf16Append(a[1..], b);
    }
  }

  /** Below U+10000 the code units are the characters themselves: JavaScript's length is the character count. */
  lemma {:induction false} Utf16Bmp(s: string)
    requires InBmp(s)
    ensures |Utf16(s)| == |s|
    ensures forall i | 0 <= i < |s| :: Utf16(s)[i] == s[i] as int
  {
    if s != [] {
      assert InBmp(s[1..]) by {
        forall i | 0 <= i < |s[1..]| ensures (s[1..][i] as int) < 0x1_0000 {
          assert s[1..][i] == s[i + 1];
        }
      }
      Utf16Bmp(s[1..]);
      forall i | 0 <= i < |s| ensures Utf16(s)[i] == s[i] as int {
        if i > 0 {
          assert Utf16(s)[i] == Utf16(s[1..])[i - 1];
        }
      }
    }
  }

  // ---------------------------------------------------------------------
  // Reviews and notes

  /** The review count appears only when it is set and positive. */
  function ReviewsShown(reviewsOrdered: Option<int>): (r: Option<int>)
    ensures r.Some? <==> reviewsOrdered.Some? && reviewsOrdered.value > 0
    ensures r.Some? ==> r == reviewsOrdered
  {
    if reviewsOrdered.Some? && reviewsOrdered.value > 0 then reviewsOrdered else None
  }

  const NotesLimit := 100
  const Ellipsis := "..."

  /**
   * The notes line: absent for missing or empty notes; notes longer than
   * 100 UTF-16 code units are cut to their first 100 code units followed
   * by `...`. The result is in code units because the cut may fall between
   * the two halves of a surrogate pair.
   */
  function NotesShown(notes: Option<string>): (r: Option<seq<CodeUnit>>)
    ensures r.None? <==> notes.None? || notes.value == ""
    ensures r.Some? ==> |r.value| <= NotesLimit + |Ellipsis|
    ensures r.Some? && |Utf16(notes.value)| <= NotesLimit ==> r.value == Utf16(notes.value)
    ensures r.Some? && |Utf16(notes.value)| > NotesLimit ==>
      |r.value| == NotesLimit + |Ellipsis| && r.value[..NotesLimit] <= Utf16(notes.value) &&
      r.value[NotesLimit..] == Utf16(Ellipsis)
  {
    if notes.None? || notes.value == "" then None
    else
      var u := Utf16(notes.value);
      assert |Utf16(Ellipsis)| == 3 by { Utf16Bmp(Ellipsis); }
      if |u| > NotesLimit then Some(u[..NotesLimit] + Utf16(Ellipsis)) else Some(u)
  }

  /**
   * For notes written entirely below U+10000, counting code units is
   * counting characters: the line shows the notes themselves up to 100
   * characters, and otherwise their first 100 characters and `...`.
   */
  lemma NotesShownBmp(notes: string)
    requires notes != [] && InBmp(notes)
    ensures |notes| <= NotesLimit ==> NotesShown(Some(notes)) == Some(Utf16(notes))
    ensures |notes| > NotesLimit ==> NotesShown(Some(notes)) == Some(Utf16(notes[..NotesLimit] + Ellipsis))
  {
    if |notes| > NotesLimit {
      Utf16BmpPrefix(notes, NotesLimit);
      Utf16Append(notes[..NotesLimit], Ellipsis);
    } else {
      Utf16BmpPrefix(notes, 0);
    }
  }

  /** Below U+10000, the first `n` code units encode the first `n` characters. */
  lemma Utf16BmpPrefix(s: string, n: nat)
    requires InBmp(s) && n <= |s|
    ensures |Utf16(s)| == |s|
    ensures Utf16(s[..n]) == Utf16(s)[..n]
  {
    var cut := s[..n];
    assert InBmp(cut) by {
      forall i | 0 <= i < |cut| ensures (cut[i] as int) < 0x1_0000 {
        assert cut[i] == s[i];
      }
    }
    Utf16Bmp(s);
    Utf16Bmp(cut);
  }

  /** 99 letters `a`. */
  const NinetyNineAs: string := seq(99, _ => 'a')

  /**
   * A note of 99 letters and one emoji is 100 characters but 101 code
   * units: the card cuts it between the emoji's two surrogates and shows
   * the 99 letters, a lone high surrogate and `...`.
   */
  lemma NotesCutSplitsSurrogate()
    ensures |NinetyNineAs + "\U{1F600}"| == NotesLimit
    ensures NotesShown(Some(NinetyNineAs + "\U{1F600}")) == Some(Utf16(NinetyNineAs) + [0xD83D] + Utf16(Ellipsis))
  {
    var s := NinetyNineAs + "\U{1F600}";
    assert InBmp(NinetyNineAs);
    Utf16Bmp(NinetyNineAs);
    Utf16Append(NinetyNineAs, "\U{1F600}");
    assert Utf16("\U{1F600}") == [0xD83D, 0xDE00];
    var u := Utf16(s);
    assert |u| == 101;
    assert u[..NotesLimit] == Utf16(NinetyNineAs) + [0xD83D];
  }

  // ---------------------------------------------------------------------
  // The card

  /** The values a card displays; dates are shown by their badge colour. */
  datatype CardView = CardView(
    title: string,
    email: string,
    phone: string,
    amountPaid: string,
    nextPayment: string,
    nextContactBadge: BadgeVariant,
    commissionBadge: BadgeVariant,
    reviews: Option<int>,
    notes: Option<seq<CodeUnit>>)

  function Card(c: Client, now: Millis): (v: CardView)
    ensures v.title == c.clientName && v.email == c.email && v.phone == c.phoneNumber
    ensures |v.amountPaid| >= 5 && v.amountPaid[0] == '$' && AmountValid(v.amountPaid[1..])
    ensures Cents(v.amountPaid[1..]) == ClientList.PaidCents(c)
    ensures |v.nextPayment| >= 5 && v.nextPayment[0] == '$' && AmountValid(v.nextPayment[1..])
    ensures Cents(v.nextPayment[1..]) == if c.nextMonthAgreedPayment.None? then 0 else Cents(c.nextMonthAgreedPayment.value)
    ensures v.nextContactBadge == StatusColor(ClientList.GetDateStatus(c.dateOfNextContact, now))
    ensures v.commissionBadge == StatusColor(ClientList.GetDateStatus(c.dateCommissionsDue, now))
    ensures v.reviews == ReviewsShown(c.reviewsOrdered)
    ensures v.notes == NotesShown(c.notes)
  {
    CardView(
      c.clientName, c.email, c.phoneNumber,
      FormatCurrency(c.amountPaidOnCall), FormatCurrency(c.nextMonthAgreedPayment),
      BadgeFor(c.dateOfNextContact, now), BadgeFor(c.dateCommissionsDue, now),
      ReviewsShown(c.reviewsOrdered), NotesShown(c.notes))
  }

  /** The card's two amounts are exactly what `formatCurrency` shows for the stored amounts. */
  lemma CardAmounts(c: Client, now: Millis)
    ensures Card(c, now).amountPaid == FormatCurrency(c.amountPaidOnCall)
    ensures Card(c, now).nextPayment == FormatCurrency(c.nextMonthAgreedPayment)
    ensures |FracPart(Card(c, now).amountPaid[1..])| == 2 && |FracPart(Card(c, now).nextPayment[1..])| == 2
  {
  }
}
