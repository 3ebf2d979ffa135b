/**
 * The dashboard's derivations over the client list
 * (src/components/Dashboard.tsx): the four headline metrics, the three
 * urgency lists, and the "first five, then +N more" display rule.
 *
 * The urgency lists use their own rule, a raw window of seven days of
 * milliseconds from `today` and a strict `< today` for overdue, which is
 * not the rounded-day rule of the client list and the cards; the lemmas
 * at the end pin down where the two rules differ.
 */
module Dashboard {
  import opened Basics
  import opened Schema
  import ClientList
  import ClientCard

  // ---------------------------------------------------------------------
  // Metrics

  /** `parseFloat(nextMonthAgreedPayment || "0")`, in cents. */
  function NextCents(c: Client): int {
    if c.nextMonthAgreedPayment.None? then 0 else Cents(c.nextMonthAgreedPayment.value)
  }

  /** `reviewsOrdered || 0`. */
  function ReviewsOrZero(c: Client): int {
    if c.reviewsOrdered.None? then 0 else c.reviewsOrdered.value
  }

  /** The `reduce` that adds up one number per record, starting from 0. */
  function Sum(f: Client -> int, s: seq<Client>): (r: int)
    ensures (forall i | 0 <= i < |s| :: f(s[i]) >= 0) ==> r >= 0
  {
    if s == [] then 0 else f(s[0]) + Sum(f, s[1..])
  }

  /** A sum over a concatenation is the sum of the sums. */
  lemma {:induction false} SumAppend(f: Client -> int, a: seq<Client>, b: seq<Client>)
    ensures Sum(f, a + b) == Sum(f, a) + Sum(f, b)
  {
    if a == [] {
      assert a + b == b;
    } else {
      assert (a + b)[0] == a[0];
      assert (a + b)[1..] == a[1..] + b;
      SumAppend(f, a[1..], b);
    }
  }

  /** Summing non-negative figures gives a non-negative total that bounds every single figure. */
  lemma {:induction false} SumNonNegative(f: Client -> int, s: seq<Client>)
    requires forall i | 0 <= i < |s| :: f(s[i]) >= 0
    ensures Sum(f, s) >= 0
    ensures forall i | 0 <= i < |s| :: f(s[i]) <= Sum(f, s)
  {
    if s != [] {
      SumNonNegative(f, s[1..]);
      forall i | 1 <= i < |s| ensures f(s[i]) <= Sum(f, s) {
        assert s[1..][i - 1] == s[i];
      }
    }
  }

  /** The four headline figures; money is in cents. */
  datatype Metrics = Metrics(totalClients: nat, totalRevenue: int, projectedRevenue: int, totalReviews: int)

  function ComputeMetrics(clients: seq<Client>): (m: Metrics)
    ensures m.totalClients == |clients|
    ensures m.totalRevenue >= 0 && m.projectedRevenue >= 0
  {
    Metrics(|clients|, Sum(ClientList.PaidCents, clients), Sum(NextCents, clients), Sum(ReviewsOrZero, clients))
  }

  function AddMetrics(m: Metrics, n: Metrics): Metrics {
    Metrics(m.totalClients + n.totalClients, m.totalRevenue + n.totalRevenue,
            m.projectedRevenue + n.projectedRevenue, m.totalReviews + n.totalReviews)
  }

  /**
   * The metrics of the empty list are all zero, and the metrics of two
   * lists put together are the figure-by-figure sums of their metrics.
   */
  lemma MetricsAdditive(a: seq<Client>, b: seq<Client>)
    ensures ComputeMetrics([]) == Metrics(0, 0, 0, 0)
    ensures ComputeMetrics(a + b) == AddMetrics(ComputeMetrics(a), ComputeMetrics(b))
  {
    var m, n := ComputeMetrics(a), ComputeMetrics(b);
    assert ComputeMetrics(a + b).totalRevenue == m.totalRevenue + n.totalRevenue by {
      SumAppend(ClientList.PaidCents, a, b);
    }
    assert ComputeMetrics(a + b).projectedRevenue == m.projectedRevenue + n.projectedRevenue by {
      SumAppend(NextCents, a, b);
    }
    assert ComputeMetrics(a + b).totalReviews == m.totalReviews + n.totalReviews by {
      SumAppend(ReviewsOrZero, a, b);
    }
  }

  /** Both revenue figures are non-negative and at least any one record's amount. */
  /** One record adds one client, its paid and agreed cents (0 when null) and its review count (0 when null). */
  lemma MetricsOfOne(c: Client)
    ensures ComputeMetrics([c]) == Metrics(1, ClientList.PaidCents(c), NextCents(c), ReviewsOrZero(c))
  {
    assert [c][1..] == [];
    assert Sum(ClientList.PaidCents, [c]) == ClientList.PaidCents(c);
    assert Sum(NextCents, [c]) == NextCents(c);
    assert Sum(ReviewsOrZero, [c]) == ReviewsOrZero(c);
  }

  lemma RevenueBounds(clients: seq<Client>)
    ensures ComputeMetrics(clients).totalRevenue >= 0
    ensures ComputeMetrics(clients).projectedRevenue >= 0
    ensures forall i | 0 <= i < |clients| :: ClientList.PaidCents(clients[i]) <= ComputeMetrics(clients).totalRevenue
    ensures forall i | 0 <= i < |clients| :: NextCents(clients[i]) <= ComputeMetrics(clients).projectedRevenue
  {
    SumNonNegative(ClientList.PaidCents, clients);
    SumNonNegative(NextCents, clients);
  }

  // ---------------------------------------------------------------------
  // Urgency lists

  const WeekMs := 7 * ClientList.DayMs

  /** `d >= today && d <= nextWeek`, with `nextWeek` seven days of milliseconds ahead. */
  predicate InWeek(d: Millis, today: Millis) {
    today <= d <= today + WeekMs
  }

  predicate ContactThisWeek(c: Client, today: Millis) {
    c.dateOfNextContact.Some? && InWeek(c.dateOfNextContact.value, today)
  }

  predicate CommissionThisWeek(c: Client, today: Millis) {
    c.dateCommissionsDue.Some? && InWeek(c.dateCommissionsDue.value, today)
  }

  /** A date that is set and strictly before `today`. */
  predicate Before(date: Option<Millis>, today: Millis) {
    date.Some? && date.value < today
  }

  predicate IsOverdueTask(c: Client, today: Millis) {
    Before(c.dateOfNextContact, today) || Before(c.dateCommissionsDue, today)
  }

  datatype UrgencyList = UpcomingContactsList | UpcomingCommissionsList | OverdueTasksList

  /** The test each urgency list applies to a record. */
  function Test(today: Millis, list: UrgencyList): Client -> bool {
    match list
    case UpcomingContactsList => c => ContactThisWeek(c, today)
    case UpcomingCommissionsList => c => CommissionThisWeek(c, today)
    case OverdueTasksList => c => IsOverdueTask(c, today)
  }

  /** `upcomingContacts`: the records whose next contact falls in the coming week, in list order. */
  function UpcomingContacts(clients: seq<Client>, today: Millis): (r: seq<Client>)
    ensures IsSubseq(r, clients)
    ensures forall c :: c in r <==> c in clients && ContactThisWeek(c, today)
  {
    FilterIsSubseq(Test(today, UpcomingContactsList), clients);
    FilterMembers(Test(today, UpcomingContactsList), clients);
    Filter(Test(today, UpcomingContactsList), clients)
  }

  /** `upcomingCommissions`: the records whose commission falls due in the coming week, in list order. */
  function UpcomingCommissions(clients: seq<Client>, today: Millis): (r: seq<Client>)
    ensures IsSubseq(r, clients)
    ensures forall c :: c in r <==> c in clients && CommissionThisWeek(c, today)
  {
    FilterIsSubseq(Test(today, UpcomingCommissionsList), clients);
    FilterMembers(Test(today, UpcomingCommissionsList), clients);
    Filter(Test(today, UpcomingCommissionsList), clients)
  }

  /** `overdueTasks`: the records with either date set and already past, in list order. */
  function OverdueTasks(clients: seq<Client>, today: Millis): (r: seq<Client>)
    ensures IsSubseq(r, clients)
    ensures forall c :: c in r <==> c in clients && IsOverdueTask(c, today)
  {
    FilterIsSubseq(Test(today, OverdueTasksList), clients);
    FilterMembers(Test(today, OverdueTasksList), clients);
    Filter(Test(today, OverdueTasksList), clients)
  }

  /**
   * Each list holds every record its test accepts as many times as the
   * client list does, and no other record: nothing is merged or doubled.
   */
  lemma UrgencyListCounts(clients: seq<Client>, today: Millis)
    ensures forall c :: (multiset(UpcomingContacts(clients, today))[c] ==
      if ContactThisWeek(c, today) then multiset(clients)[c] else 0)
    ensures forall c :: (multiset(UpcomingCommissions(clients, today))[c] ==
      if CommissionThisWeek(c, today) then multiset(clients)[c] else 0)
    ensures forall c :: (multiset(OverdueTasks(clients, today))[c] ==
      if IsOverdueTask(c, today) then multiset(clients)[c] else 0)
  {
    FilterMultiplicity(Test(today, UpcomingContactsList), clients);
    FilterMultiplicity(Test(today, UpcomingCommissionsList), clients);
    FilterMultiplicity(Test(today, OverdueTasksList), clients);
  }

  /**
   * A record listed as an upcoming contact is never overdue through its
   * contact date; it is an overdue task exactly when its commission date
   * is past.
   */
  lemma UpcomingContactOverdueOnlyByCommission(clients: seq<Client>, today: Millis, c: Client)
    requires c in UpcomingContacts(clients, today)
    ensures !Before(c.dateOfNextContact, today)
    ensures c in OverdueTasks(clients, today) <==> Before(c.dateCommissionsDue, today)
  {
  }

  // ---------------------------------------------------------------------
  // The display rule

  const ShownLimit := 5

  /** `list.slice(0, 5)`: the entries a panel lists. */
  function FirstShown(list: seq<Client>): (r: seq<Client>)
    ensures |r| <= ShownLimit && r <= list
    ensures |list| <= ShownLimit ==> r == list
    ensures |list| > ShownLimit ==> r == list[..ShownLimit]
  {
    if |list| <= ShownLimit then list else list[..ShownLimit]
  }

  /** The `+N more` line: present only for lists longer than five, N counting the rest. */
  function MoreLine(list: seq<Client>): (n: Option<nat>)
    ensures n.Some? <==> |list| > ShownLimit
    ensures n.Some? ==> n.value == |list| - ShownLimit
  {
    if |list| > ShownLimit then Some(|list| - ShownLimit) else None
  }

  /** What a panel shows accounts for every entry: the listed ones and the `+N more` are the whole list. */
  lemma ShownAndMoreCoverList(list: seq<Client>)
    ensures FirstShown(list) + list[|FirstShown(list)|..] == list
    ensures |FirstShown(list)| + (if MoreLine(list).Some? then MoreLine(list).value else 0) == |list|
  {
  }

  /** Recent activity lists the first five clients of the list, in list order. */
  function RecentActivity(clients: seq<Client>): (r: seq<Client>)
    ensures |r| == if |clients| < ShownLimit then |clients| else ShownLimit
    ensures forall i | 0 <= i < |r| :: r[i] == clients[i]
  {
    FirstShown(clients)
  }

  // ---------------------------------------------------------------------
  // Where the dashboard's rule and the rounded-day rule differ

  /** Everything in the dashboard's week window is "due soon" to the client list. */
  lemma InWeekIsDueSoon(d: Millis, today: Millis)
    ensures InWeek(d, today) ==> ClientList.GetDateStatus(Some(d), today) == ClientList.DueSoon
  {
  }

  /**
   * The client list's "due soon" band is wider by exactly the day just
   * passed: a due-soon date falls outside the dashboard's week window
   * precisely when it lies less than a day in the past.
   */
  lemma DueSoonOutsideWeek(d: Millis, today: Millis)
    ensures ClientList.GetDateStatus(Some(d), today) == ClientList.DueSoon && !InWeek(d, today) <==>
      today - ClientList.DayMs < d < today
  {
  }

  /**
   * Anything the client list calls overdue is overdue on the dashboard,
   * but not the other way round: a date one millisecond past is overdue on
   * the dashboard and only due soon in the list.
   */
  lemma OverdueRulesDiffer(today: Millis)
    ensures forall d: Millis :: ClientList.GetDateStatus(Some(d), today) == ClientList.Overdue ==> Before(Some(d), today)
    ensures Before(Some(today - 1), today)
    ensures ClientList.GetDateStatus(Some(today - 1), today) == ClientList.DueSoon
  {
  }

  // ---------------------------------------------------------------------
  // The example data

  const Jan10: Millis := 1704844800000
  const Jan15: Millis := 1705276800000
  const Jan18: Millis := 1705536000000
  const Jan20: Millis := 1705708800000
  const Jan22: Millis := 1705881600000
  const Jan24: Millis := 1706054400000
  const Jan25: Millis := 1706140800000
  const Jan28: Millis := 1706400000000
  const Jan31: Millis := 1706659200000
  const Feb01: Millis := 1706745600000
  const Feb15: Millis := 1707955200000

  /** A whole number of dollars written as the example data writes it, with two zero decimals. */
  function Dollars(n: nat): Amount {
    DollarsValid(n);
    ClientCard.RenderCents(n * 100)
  }

  lemma DollarsValid(n: nat)
    ensures AmountValid(ClientCard.RenderCents(n * 100))
    ensures Cents(ClientCard.RenderCents(n * 100)) == n * 100
  {
    ClientCard.RenderCentsValid(n * 100);
  }

  /** The two figures of a record whose amounts are whole dollars. */
  lemma AmountsInDollars(c: Client, paid: nat, next: nat)
    requires c.amountPaidOnCall == Some(Dollars(paid)) && c.nextMonthAgreedPayment == Some(Dollars(next))
    ensures ClientList.PaidCents(c) == paid * 100 && NextCents(c) == next * 100
  {
    DollarsValid(paid);
    DollarsValid(next);
  }

  /** The four clients of the dashboard's example page (billing addresses and notes as given there). */
  const Acme: Client :=
    Client("1", "Acme Corporation", "contact@acme.com", "(555) 123-4567",
           "123 Business St, Suite 100, New York, NY 10001", Some(Jan15), Some(25),
           Some(Dollars(2500)), Some(Dollars(3500)), Some(Feb01), Some(Jan31),
           Some("Very responsive client. Interested in expanding their marketing budget next quarter."))

  const TechSolutions: Client :=
    Client("2", "Tech Solutions Inc", "info@techsolutions.com", "(555) 987-6543",
           "456 Tech Avenue, Silicon Valley, CA 94101", Some(Jan20), Some(15),
           Some(Dollars(1800)), Some(Dollars(2200)), Some(Jan28), Some(Feb15),
           Some("Looking for long-term partnership. Discuss volume discounts."))

  const GlobalMarketing: Client :=
    Client("3", "Global Marketing Group", "hello@globalmarketing.com", "(555) 456-7890",
           "789 Marketing Blvd, Chicago, IL 60601", Some(Jan10), Some(50),
           Some(Dollars(5000)), Some(Dollars(6000)), Some(Jan25), Some(Jan20),
           Some("Premium client. Always pays on time. Consider offering exclusive packages."))

  const StartupVentures: Client :=
    Client("4", "Startup Ventures LLC", "team@startupventures.com", "(555) 111-2222",
           "321 Innovation Drive, Austin, TX 78701", Some(Jan25), Some(8),
           Some(Dollars(750)), Some(Dollars(1200)), Some(Jan22), Some(Jan18),
           Some("New client. Monitor performance closely."))

  const ExampleClients: seq<Client> := [Acme, TechSolutions, GlobalMarketing, StartupVentures]

  /** The sum over a list of four records, spelled out. */
  lemma SumOfFour(f: Client -> int, a: Client, b: Client, c: Client, d: Client)
    ensures Sum(f, [a, b, c, d]) == f(a) + f(b) + f(c) + f(d)
  {
    assert Sum(f, [d]) == f(d) by { assert [d][1..] == []; }
    assert Sum(f, [c, d]) == f(c) + f(d) by { assert [c, d][1..] == [d]; }
    assert Sum(f, [b, c, d]) == f(b) + f(c) + f(d) by { assert [b, c, d][1..] == [c, d]; }
    assert [a, b, c, d][1..] == [b, c, d];
  }

  /** The example page shows 4 clients, $10,050.00 paid, $12,900.00 projected and 98 reviews. */
  lemma ExampleMetrics()
    ensures ComputeMetrics(ExampleClients) == Metrics(4, 1005000, 1290000, 98)
  {
    var a, b, c, d := Acme, TechSolutions, GlobalMarketing, StartupVentures;
    SumOfFour(ClientList.PaidCents, a, b, c, d);
    SumOfFour(NextCents, a, b, c, d);
    SumOfFour(ReviewsOrZero, a, b, c, d);
    AmountsInDollars(a, 2500, 3500);
    AmountsInDollars(b, 1800, 2200);
    AmountsInDollars(c, 5000, 6000);
    AmountsInDollars(d, 750, 1200);
    assert ClientList.PaidCents(a) == 250000 && NextCents(a) == 350000 && ReviewsOrZero(a) == 25;
    assert ClientList.PaidCents(b) == 180000 && NextCents(b) == 220000 && ReviewsOrZero(b) == 15;
    assert ClientList.PaidCents(c) == 500000 && NextCents(c) == 600000 && ReviewsOrZero(c) == 50;
    assert ClientList.PaidCents(d) == 75000 && NextCents(d) == 120000 && ReviewsOrZero(d) == 8;
  }

  /** The three lists for four records whose dates fall as the example's do on a given day. */
  lemma UrgencyOfFour(a: Client, b: Client, c: Client, d: Client, today: Millis)
    requires !ContactThisWeek(a, today) && ContactThisWeek(b, today)
    requires ContactThisWeek(c, today) && !ContactThisWeek(d, today)
    requires CommissionThisWeek(a, today) && !CommissionThisWeek(b, today)
    requires !CommissionThisWeek(c, today) && !CommissionThisWeek(d, today)
    requires !IsOverdueTask(a, today) && !IsOverdueTask(b, today)
    requires IsOverdueTask(c, today) && IsOverdueTask(d, today)
    ensures UpcomingContacts([a, b, c, d], today) == [b, c]
    ensures UpcomingCommissions([a, b, c, d], today) == [a]
    ensures OverdueTasks([a, b, c, d], today) == [c, d]
  {
    ListOfFour(today, UpcomingContactsList, a, b, c, d);
    ListOfFour(today, UpcomingCommissionsList, a, b, c, d);
    ListOfFour(today, OverdueTasksList, a, b, c, d);
  }

  /** One urgency list over four records, as the filter of its test. */
  lemma ListOfFour(today: Millis, list: UrgencyList, a: Client, b: Client, c: Client, d: Client)
    ensures Filter(Test(today, list), [a, b, c, d]) ==
      Filter(Test(today, list), [a]) + Filter(Test(today, list), [b]) +
      Filter(Test(today, list), [c]) + Filter(Test(today, list), [d])
    ensures Test(today, list)(a) ==> Filter(Test(today, list), [a]) == [a]
    ensures !Test(today, list)(a) ==> Filter(Test(today, list), [a]) == []
    ensures Test(today, list)(b) ==> Filter(Test(today, list), [b]) == [b]
    ensures !Test(today, list)(b) ==> Filter(Test(today, list), [b]) == []
    ensures Test(today, list)(c) ==> Filter(Test(today, list), [c]) == [c]
    ensures !Test(today, list)(c) ==> Filter(Test(today, list), [c]) == []
    ensures Test(today, list)(d) ==> Filter(Test(today, list), [d]) == [d]
    ensures !Test(today, list)(d) ==> Filter(Test(today, list), [d]) == []
  {
    var p := Test(today, list);
    FilterFour(p, a, b, c, d);
    FilterOne(p, a); FilterOne(p, b); FilterOne(p, c); FilterOne(p, d);
  }

  /**
   * On 24 January 2024 the example lists Tech Solutions and Global
   * Marketing Group as contacts this week, Acme's commission (due exactly
   * seven days later, on the window's closing edge) as due, and Global
   * Marketing Group and Startup Ventures as overdue: Global Marketing
   * Group is both an upcoming contact and an overdue task, through its
   * commission date.
   */
  lemma ExampleUrgencyLists()
    ensures UpcomingContacts(ExampleClients, Jan24) == [TechSolutions, GlobalMarketing]
    ensures UpcomingCommissions(ExampleClients, Jan24) == [Acme]
    ensures OverdueTasks(ExampleClients, Jan24) == [GlobalMarketing, StartupVentures]
  {
    ExampleDatesOnJan24();
    UrgencyOfFour(Acme, TechSolutions, GlobalMarketing, StartupVentures, Jan24);
  }

  /** Where each example client's two dates fall on 24 January 2024. */
  lemma ExampleDatesOnJan24()
    ensures !ContactThisWeek(Acme, Jan24) && CommissionThisWeek(Acme, Jan24) && !IsOverdueTask(Acme, Jan24)
    ensures ContactThisWeek(TechSolutions, Jan24) && !CommissionThisWeek(TechSolutions, Jan24)
    ensures !IsOverdueTask(TechSolutions, Jan24)
    ensures ContactThisWeek(GlobalMarketing, Jan24) && !CommissionThisWeek(GlobalMarketing, Jan24)
    ensures IsOverdueTask(GlobalMarketing, Jan24)
    ensures !ContactThisWeek(StartupVentures, Jan24) && !CommissionThisWeek(StartupVentures, Jan24)
    ensures IsOverdueTask(StartupVentures, Jan24)
  {
    DatesOn(Acme, Jan24, Feb01, Jan31);
    DatesOn(TechSolutions, Jan24, Jan28, Feb15);
    DatesOn(GlobalMarketing, Jan24, Jan25, Jan20);
    DatesOn(StartupVentures, Jan24, Jan22, Jan18);
  }

  /** The three tests, read off a record's two dates. */
  lemma DatesOn(c: Client, today: Millis, next: Millis, due: Millis)
    requires c.dateOfNextContact == Some(next) && c.dateCommissionsDue == Some(due)
    ensures ContactThisWeek(c, today) <==> today <= next <= today + WeekMs
    ensures CommissionThisWeek(c, today) <==> today <= due <= today + WeekMs
    ensures IsOverdueTask(c, today) <==> next < today || due < today
  {
  }
}
