/**
 * The client list view's derivations (client/src/components/ClientList.tsx):
 * the date-status classifier, the search and status filter, and the
 * comparator-driven stable sort that orders what remains.
 */
module ClientList {
  import opened Basics
  import opened Schema

  /** One day in milliseconds: 1000 * 60 * 60 * 24. */
  const DayMs := 86400000

  datatype DateStatus = Neutral | Overdue | DueSoon | Upcoming

  /** `Math.ceil(x / m)` for a positive divisor, in exact integer arithmetic. */
  function CeilDiv(x: int, m: int): int
    requires m > 0
  {
    -((-x) / m)
  }

  /**
   * `getDateStatus`: no date is neutral; otherwise the whole days until
   * the date, rounded up, decide. In milliseconds: overdue once the date is
   * a full day or more in the past, due soon up to seven days ahead, and
   * upcoming beyond that. A date less than a day in the past is due soon.
   */
  function GetDateStatus(date: Option<Millis>, now: Millis): (r: DateStatus)
    ensures r == Neutral <==> date.None?
    ensures r == Overdue <==> date.Some? && date.value - now <= -DayMs
    ensures r == DueSoon <==> date.Some? && -DayMs < date.value - now <= 7 * DayMs
    ensures r == Upcoming <==> date.Some? && date.value - now > 7 * DayMs
  {
    if date.None? then Neutral
    else
      var diffDays := CeilDiv(date.value - now, DayMs);
      if diffDays < 0 then Overdue
      else if diffDays <= 7 then DueSoon
      else Upcoming
  }

  // ---------------------------------------------------------------------
  // Search

  /** `toLowerCase`, restricted to ASCII letters. */
  function LowerChar(c: char): char {
    if 'A' <= c <= 'Z' then ((c as int) + 32) as char else c
  }

  function Lower(s: string): (r: string)
    ensures |r| == |s| && forall i | 0 <= i < |s| :: r[i] == LowerChar(s[i])
  {
    if s == [] then [] else [LowerChar(s[0])] + Lower(s[1..])
  }

  /** `hay.includes(needle)`: `needle` starts at some position of `hay`. */
  predicate Contains(hay: string, needle: string)
    decreases |hay|
  {
    needle <= hay || (hay != [] && Contains(hay[1..], needle))
  }

  /** `needle` occurs in `hay` starting at offset `i`. */
  predicate OccursAt(hay: string, needle: string, i: int) {
    0 <= i <= |hay| - |needle| && hay[i..i + |needle|] == needle
  }

  /** An occurrence past the first offset is an occurrence in the tail, one offset earlier. */
  lemma OccursInTail(hay: string, needle: string, i: int)
    requires hay != [] && 1 <= i
    ensures OccursAt(hay, needle, i) <==> OccursAt(hay[1..], needle, i - 1)
  {
    if 0 <= i - 1 <= |hay[1..]| - |needle| {
      assert hay[1..][i - 1..i - 1 + |needle|] == hay[i..i + |needle|];
    }
  }

  /** `Contains` holds exactly when `needle` occurs at some offset of `hay`. */
  lemma {:induction false} ContainsIffOccurs(hay: string, needle: string)
    ensures Contains(hay, needle) <==> exists i :: OccursAt(hay, needle, i)
    decreases |hay|
  {
    if needle <= hay {
      assert OccursAt(hay, needle, 0);
    } else if hay == [] {
    } else {
      ContainsIffOccurs(hay[1..], needle);
      assert !OccursAt(hay, needle, 0);
      if exists i :: OccursAt(hay, needle, i) {
        var i :| OccursAt(hay, needle, i);
        OccursInTail(hay, needle, i);
      }
      if exists j :: OccursAt(hay[1..], needle, j) {
        var j :| OccursAt(hay[1..], needle, j);
        OccursInTail(hay, needle, j + 1);
      }
    }
  }

  /**
   * The search predicate: the lower-cased term occurs in the lower-cased
   * name or e-mail, or the raw term occurs in the raw phone number.
   */
  predicate MatchesSearch(c: Client, term: string) {
    Contains(Lower(c.clientName), Lower(term)) ||
    Contains(Lower(c.email), Lower(term)) ||
    Contains(c.phoneNumber, term)
  }

  /**
   * The search in terms of occurrences: the lower-cased term starts at
   * some offset of the lower-cased name or e-mail, or the raw term at some
   * offset of the phone number.
   */
  lemma MatchesSearchIffOccurs(c: Client, term: string)
    ensures MatchesSearch(c, term) <==>
      (exists i :: OccursAt(Lower(c.clientName), Lower(term), i)) ||
      (exists i :: OccursAt(Lower(c.email), Lower(term), i)) ||
      (exists i :: OccursAt(c.phoneNumber, term, i))
  {
    ContainsIffOccurs(Lower(c.clientName), Lower(term));
    ContainsIffOccurs(Lower(c.email), Lower(term));
    ContainsIffOccurs(c.phoneNumber, term);
    assert MatchesSearch(c, term) <==>
      Contains(Lower(c.clientName), Lower(term)) || Contains(Lower(c.email), Lower(term)) || Contains(c.phoneNumber, term);
  }

  /** An empty search term matches every record. */
  lemma EmptySearchMatchesAll(c: Client)
    ensures MatchesSearch(c, "")
  {
    assert Lower("") == "";
    assert "" <= Lower(c.clientName);
  }

  // ---------------------------------------------------------------------
  // Status filter

  /**
   * The status part of the filter: "all" and unknown values keep every
   * record; "overdue" and "due-soon" keep a record when EITHER date has
   * that status; "upcoming" keeps it only when BOTH dates are upcoming.
   */
  predicate StatusMatches(c: Client, filterStatus: string, now: Millis)
    ensures filterStatus != "overdue" && filterStatus != "due-soon" && filterStatus != "upcoming" ==>
      StatusMatches(c, filterStatus, now)
    ensures filterStatus == "upcoming" && StatusMatches(c, filterStatus, now) ==>
      c.dateOfNextContact.Some? && c.dateCommissionsDue.Some?
    ensures c.dateOfNextContact.None? && c.dateCommissionsDue.None? ==>
      (StatusMatches(c, filterStatus, now) <==> filterStatus != "overdue" && filterStatus != "due-soon" && filterStatus != "upcoming")
  {
    if filterStatus == "all" then true
    else
      var nextContact := GetDateStatus(c.dateOfNextContact, now);
      var commission := GetDateStatus(c.dateCommissionsDue, now);
      if filterStatus == "overdue" then nextContact == Overdue || commission == Overdue
      else if filterStatus == "due-soon" then nextContact == DueSoon || commission == DueSoon
      else if filterStatus == "upcoming" then nextContact == Upcoming && commission == Upcoming
      else true
  }

  /** The status filter in milliseconds, showing the OR / AND asymmetry. */
  lemma StatusFilterInMillis(c: Client, now: Millis)
    ensures StatusMatches(c, "overdue", now) <==>
      (c.dateOfNextContact.Some? && c.dateOfNextContact.value <= now - DayMs) ||
      (c.dateCommissionsDue.Some? && c.dateCommissionsDue.value <= now - DayMs)
    ensures StatusMatches(c, "due-soon", now) <==>
      (c.dateOfNextContact.Some? && now - DayMs < c.dateOfNextContact.value <= now + 7 * DayMs) ||
      (c.dateCommissionsDue.Some? && now - DayMs < c.dateCommissionsDue.value <= now + 7 * DayMs)
    ensures StatusMatches(c, "upcoming", now) <==>
      (c.dateOfNextContact.Some? && c.dateOfNextContact.value > now + 7 * DayMs) &&
      (c.dateCommissionsDue.Some? && c.dateCommissionsDue.value > now + 7 * DayMs)
  {
  }

  /** A record passes the list's filter: it matches the search, then the status. */
  predicate Keep(c: Client, term: string, filterStatus: string, now: Millis) {
    MatchesSearch(c, term) && StatusMatches(c, filterStatus, now)
  }

  function KeepPred(term: string, filterStatus: string, now: Millis): Client -> bool {
    c => Keep(c, term, filterStatus, now)
  }

  // ---------------------------------------------------------------------
  // Sort

  /** `localeCompare`, modelled as ordinal (character code) comparison. */
  function StrCmp(a: string, b: string): (r: int)
    ensures -1 <= r <= 1
    ensures r == 0 <==> a == b
  {
    if a == [] then (if b == [] then 0 else -1)
    else if b == [] then 1
    else if a[0] < b[0] then -1
    else if a[0] > b[0] then 1
    else
      assert a == [a[0]] + a[1..] && b == [b[0]] + b[1..];
      StrCmp(a[1..], b[1..])
  }

  lemma {:induction false} StrCmpAntisymmetric(a: string, b: string)
    ensures StrCmp(a, b) == -StrCmp(b, a)
  {
    if a != [] && b != [] && a[0] == b[0] {
      StrCmpAntisymmetric(a[1..], b[1..]);
    }
  }

  lemma {:induction false} StrCmpTransitive(a: string, b: string, c: string)
    requires StrCmp(a, b) <= 0 && StrCmp(b, c) <= 0
    ensures StrCmp(a, c) <= 0
  {
    if a != [] && b != [] && c != [] && a[0] == b[0] && b[0] == c[0] {
      StrCmpTransitive(a[1..], b[1..], c[1..]);
    }
  }

  /** The amount sort key: `parseFloat(amount || "0")`, in cents. */
  function PaidCents(c: Client): int {
    if c.amountPaidOnCall.None? then 0 else Cents(c.amountPaidOnCall.value)
  }

  /** The `sortBy` select's values; the comparator's `default` branch is `Unordered`. */
  datatype SortKey = ByName | ByAmount | ByNextContact | Unordered

  function SortKeyOf(sortBy: string): SortKey {
    if sortBy == "name" then ByName
    else if sortBy == "amount" then ByAmount
    else if sortBy == "next-contact" then ByNextContact
    else Unordered
  }

  /**
   * The comparator handed to `.sort`: negative puts `a` first. "name" is
   * ascending by name, "amount" descending by amount paid, "next-contact"
   * ascending by date with undated records last; any other key ties all.
   */
  function Compare(sortBy: SortKey, a: Client, b: Client): int {
    match sortBy
    case ByName => StrCmp(a.clientName, b.clientName)
    case ByAmount => PaidCents(b) - PaidCents(a)
    case ByNextContact =>
      if a.dateOfNextContact.None? && b.dateOfNextContact.None? then 0
      else if a.dateOfNextContact.None? then 1
      else if b.dateOfNextContact.None? then -1
      else a.dateOfNextContact.value - b.dateOfNextContact.value
    case Unordered => 0
  }

  /**
   * What each key puts first: the smaller name, the larger amount paid, the
   * earlier next-contact date and any dated record before an undated one;
   * the default key ties every pair.
   */
  lemma CompareMeaning(sortBy: SortKey, a: Client, b: Client)
    ensures sortBy == ByName ==>
      (Compare(sortBy, a, b) < 0 <==> StrCmp(a.clientName, b.clientName) < 0) &&
      (Compare(sortBy, a, b) == 0 <==> a.clientName == b.clientName)
    ensures sortBy == ByAmount ==>
      (Compare(sortBy, a, b) < 0 <==> PaidCents(a) > PaidCents(b)) &&
      (Compare(sortBy, a, b) == 0 <==> PaidCents(a) == PaidCents(b))
    ensures sortBy == ByNextContact && a.dateOfNextContact.Some? && b.dateOfNextContact.None? ==> Compare(sortBy, a, b) < 0
    ensures sortBy == ByNextContact && a.dateOfNextContact.None? && b.dateOfNextContact.Some? ==> Compare(sortBy, a, b) > 0
    ensures sortBy == ByNextContact && a.dateOfNextContact.Some? && b.dateOfNextContact.Some? ==>
      (Compare(sortBy, a, b) < 0 <==> a.dateOfNextContact.value < b.dateOfNextContact.value)
    ensures sortBy == Unordered ==> Compare(sortBy, a, b) == 0
  {
  }

  /** The comparator is consistent: swapping its arguments flips its sign. */
  lemma CompareAntisymmetric(sortBy: SortKey, a: Client, b: Client)
    ensures Compare(sortBy, a, b) < 0 <==> Compare(sortBy, b, a) > 0
    ensures Compare(sortBy, a, b) == 0 <==> Compare(sortBy, b, a) == 0
  {
    StrCmpAntisymmetric(a.clientName, b.clientName);
  }

  /** The comparator is consistent: "may precede" is transitive. */
  lemma CompareTransitive(sortBy: SortKey, a: Client, b: Client, c: Client)
    requires Compare(sortBy, a, b) <= 0 && Compare(sortBy, b, c) <= 0
    ensures Compare(sortBy, a, c) <= 0
  {
    if sortBy == ByName {
      StrCmpTransitive(a.clientName, b.clientName, c.clientName);
    }
  }

  /** The comparator for a key, as the function value handed to `.sort`. */
  function CmpOf(sortBy: SortKey): (Client, Client) -> int {
    (a: Client, b: Client) => Compare(sortBy, a, b)
  }

  /** Swapping a comparator's arguments flips the sign of its result. */
  ghost predicate Antisymmetric(cmp: (Client, Client) -> int) {
    && (forall a, b :: cmp(a, b) < 0 <==> cmp(b, a) > 0)
    && (forall a, b :: cmp(a, b) == 0 <==> cmp(b, a) == 0)
  }

  /** What a sort needs of its comparator: antisymmetry, and "may precede" (zero or less) is transitive. */
  ghost predicate Consistent(cmp: (Client, Client) -> int) {
    Antisymmetric(cmp) && forall a, b, c :: cmp(a, b) <= 0 && cmp(b, c) <= 0 ==> cmp(a, c) <= 0
  }

  /** Every key's comparator is consistent. */
  lemma CompareConsistent(sortBy: SortKey)
    ensures Consistent(CmpOf(sortBy))
  {
    var cmp := CmpOf(sortBy);
    forall a, b ensures (cmp(a, b) < 0 <==> cmp(b, a) > 0) && (cmp(a, b) == 0 <==> cmp(b, a) == 0) {
      CompareAntisymmetric(sortBy, a, b);
    }
    forall a, b, c | cmp(a, b) <= 0 && cmp(b, c) <= 0 ensures cmp(a, c) <= 0 {
      CompareTransitive(sortBy, a, b, c);
    }
  }

  /** A record strictly before one that may precede a third is strictly before the third. */
  lemma StrictBefore(cmp: (Client, Client) -> int, a: Client, b: Client, c: Client)
    requires Consistent(cmp) && cmp(a, b) < 0 && cmp(b, c) <= 0
    ensures cmp(a, c) < 0
  {
  }

  /** Every record may precede every later one. */
  predicate Sorted(cmp: (Client, Client) -> int, s: seq<Client>) {
    forall i, j | 0 <= i < j < |s| :: cmp(s[i], s[j]) <= 0
  }

  /** The records that the comparator ties with `y`. */
  function TiedWith(cmp: (Client, Client) -> int, y: Client): Client -> bool {
    c => cmp(c, y) == 0
  }

  /**
   * One step of a stable insertion sort: `x` goes after every record it
   * does not strictly precede.
   */
  function Insert(cmp: (Client, Client) -> int, x: Client, s: seq<Client>): seq<Client> {
    if s == [] then [x]
    else if cmp(x, s[0]) < 0 then [x] + s
    else [s[0]] + Insert(cmp, x, s[1..])
  }

  /** One insertion step adds exactly the new record: the result is the old list plus it, as a multiset. */
  lemma {:induction false} InsertPermutes(cmp: (Client, Client) -> int, x: Client, s: seq<Client>)
    ensures multiset(Insert(cmp, x, s)) == multiset(s) + multiset{x}
  {
    if s != [] && cmp(x, s[0]) >= 0 {
      InsertPermutes(cmp, x, s[1..]);
      assert s == [s[0]] + s[1..];
    }
  }

  /** A sorted list stays sorted when its head is dropped. */
  lemma SortedTail(cmp: (Client, Client) -> int, s: seq<Client>)
    requires Sorted(cmp, s) && s != []
    ensures Sorted(cmp, s[1..])
  {
    forall i, j | 0 <= i < j < |s[1..]| ensures cmp(s[1..][i], s[1..][j]) <= 0 {
      assert s[1..][i] == s[i + 1] && s[1..][j] == s[j + 1];
    }
  }

  /** A sorted list stays sorted when its last record is dropped. */
  lemma SortedInit(cmp: (Client, Client) -> int, s: seq<Client>)
    requires Sorted(cmp, s) && s != []
    ensures Sorted(cmp, s[..|s| - 1])
  {
    var init := s[..|s| - 1];
    forall i, j | 0 <= i < j < |init| ensures cmp(init[i], init[j]) <= 0 {
      assert init[i] == s[i] && init[j] == s[j];
    }
  }

  /** A head that may precede every other record, in front of a sorted list, keeps it sorted. */
  lemma SortedCons(cmp: (Client, Client) -> int, h: Client, t: seq<Client>)
    requires Sorted(cmp, t) && forall k | 0 <= k < |t| :: cmp(h, t[k]) <= 0
    ensures Sorted(cmp, [h] + t)
  {
    var r := [h] + t;
    forall i, j | 0 <= i < j < |r| ensures cmp(r[i], r[j]) <= 0 {
      assert r[j] == t[j - 1];
      if i > 0 {
        assert r[i] == t[i - 1];
      }
    }
  }

  /** A record that may precede `x` and all of `s` may precede all of the insertion's result. */
  lemma InsertAllAfter(cmp: (Client, Client) -> int, h: Client, x: Client, s: seq<Client>)
    requires cmp(h, x) <= 0 && forall k | 0 <= k < |s| :: cmp(h, s[k]) <= 0
    ensures forall k | 0 <= k < |Insert(cmp, x, s)| :: cmp(h, Insert(cmp, x, s)[k]) <= 0
  {
    var t := Insert(cmp, x, s);
    InsertPermutes(cmp, x, s);
    forall k | 0 <= k < |t| ensures cmp(h, t[k]) <= 0 {
      assert t[k] in multiset(t);
      if t[k] != x {
        assert t[k] in multiset(s);
        var m :| 0 <= m < |s| && s[m] == t[k];
      }
    }
  }

  /** Insertion into a sorted list keeps it sorted. */
  lemma {:induction false} InsertKeepsSorted(cmp: (Client, Client) -> int, x: Client, s: seq<Client>)
    requires Consistent(cmp) && Sorted(cmp, s)
    ensures Sorted(cmp, Insert(cmp, x, s))
  {
    if s == [] {
    } else if cmp(x, s[0]) < 0 {
      forall k | 0 <= k < |s| ensures cmp(x, s[k]) <= 0 {
        if k > 0 {
          assert cmp(s[0], s[k]) <= 0;
        }
      }
      SortedCons(cmp, x, s);
    } else {
      SortedTail(cmp, s);
      InsertKeepsSorted(cmp, x, s[1..]);
      var rest := s[1..];
      forall k | 0 <= k < |rest| ensures cmp(s[0], rest[k]) <= 0 {
        assert rest[k] == s[k + 1];
      }
      assert cmp(s[0], x) <= 0;
      InsertAllAfter(cmp, s[0], x, rest);
      var t := Insert(cmp, x, rest);
      SortedCons(cmp, s[0], t);
    }
  }

  /** When `x` precedes nothing in `s`, insertion appends it. */
  lemma {:induction false} InsertAtEnd(cmp: (Client, Client) -> int, x: Client, s: seq<Client>)
    requires forall i | 0 <= i < |s| :: cmp(x, s[i]) >= 0
    ensures Insert(cmp, x, s) == s + [x]
  {
    if s != [] {
      assert forall i | 0 <= i < |s[1..]| :: s[1..][i] == s[i + 1];
      InsertAtEnd(cmp, x, s[1..]);
      assert [s[0]] + (s[1..] + [x]) == s + [x];
    }
  }

  /** Stability when `x` goes to the front: no record of `s` ties with it. */
  lemma InsertStableFront(cmp: (Client, Client) -> int, x: Client, s: seq<Client>, y: Client)
    requires Consistent(cmp) && Sorted(cmp, s) && s != [] && cmp(x, s[0]) < 0
    ensures Filter(TiedWith(cmp, y), [x] + s) == Filter(TiedWith(cmp, y), s) + Filter(TiedWith(cmp, y), [x])
  {
    var p := TiedWith(cmp, y);
    FilterAppend(p, [x], s);
    if p(x) {
      forall i | 0 <= i < |s| ensures !p(s[i]) {
        if i > 0 {
          assert cmp(s[0], s[i]) <= 0;
        }
        StrictBefore(cmp, x, s[0], s[i]);
      }
      FilterDropsAll(p, s);
    }
  }

  /** A record that `x` does not strictly precede stays in front of it. */
  lemma InsertPast(cmp: (Client, Client) -> int, x: Client, s: seq<Client>)
    requires s != [] && cmp(x, s[0]) >= 0
    ensures Insert(cmp, x, s) == [s[0]] + Insert(cmp, x, s[1..])
  {
  }

  /** Stability when `x` goes past the head: the head is kept in front of the rest. */
  lemma InsertStablePast(cmp: (Client, Client) -> int, x: Client, s: seq<Client>, y: Client)
    requires s != [] && cmp(x, s[0]) >= 0
    requires Filter(TiedWith(cmp, y), Insert(cmp, x, s[1..])) ==
             Filter(TiedWith(cmp, y), s[1..]) + Filter(TiedWith(cmp, y), [x])
    ensures Filter(TiedWith(cmp, y), Insert(cmp, x, s)) ==
            Filter(TiedWith(cmp, y), s) + Filter(TiedWith(cmp, y), [x])
  {
    var p, h, rest := TiedWith(cmp, y), s[0], s[1..];
    InsertPast(cmp, x, s);
    FilterConsShift(p, h, Insert(cmp, x, rest), rest, Filter(p, [x]));
    assert s == [h] + rest;
  }

  /**
   * Insertion is stable: among the records tied with any `y`, the inserted
   * one comes after those already present, which keep their order.
   */
  lemma {:induction false} InsertStable(cmp: (Client, Client) -> int, x: Client, s: seq<Client>, y: Client)
    requires Consistent(cmp) && Sorted(cmp, s)
    ensures Filter(TiedWith(cmp, y), Insert(cmp, x, s)) ==
            Filter(TiedWith(cmp, y), s) + Filter(TiedWith(cmp, y), [x])
  {
    if s == [] {
      assert Insert(cmp, x, s) == [x];
    } else if cmp(x, s[0]) < 0 {
      assert Insert(cmp, x, s) == [x] + s;
      InsertStableFront(cmp, x, s, y);
    } else {
      SortedTail(cmp, s);
      InsertStable(cmp, x, s[1..], y);
      InsertStablePast(cmp, x, s, y);
    }
  }

  /**
   * The stable sort `Array.prototype.sort` performs: insert the records one
   * by one, in input order. The result is a permutation of the input.
   */
  function SortBy(cmp: (Client, Client) -> int, s: seq<Client>): (r: seq<Client>)
    ensures multiset(r) == multiset(s)
  {
    if s == [] then []
    else
      var init := s[..|s| - 1];
      assert s == init + [s[|s| - 1]];
      InsertPermutes(cmp, s[|s| - 1], SortBy(cmp, init));
      Insert(cmp, s[|s| - 1], SortBy(cmp, init))
  }

  /** With a consistent comparator the sort's result is ordered. */
  lemma {:induction false} SortBySorted(cmp: (Client, Client) -> int, s: seq<Client>)
    requires Consistent(cmp)
    ensures Sorted(cmp, SortBy(cmp, s))
  {
    if s != [] {
      SortBySorted(cmp, s[..|s| - 1]);
      InsertKeepsSorted(cmp, s[|s| - 1], SortBy(cmp, s[..|s| - 1]));
    }
  }

  /** Ties keep their input order: for every `y`, the records tied with it appear in the same order. */
  lemma {:induction false} SortByStable(cmp: (Client, Client) -> int, s: seq<Client>, y: Client)
    requires Consistent(cmp)
    ensures Filter(TiedWith(cmp, y), SortBy(cmp, s)) == Filter(TiedWith(cmp, y), s)
  {
    if s != [] {
      var p, init, last := TiedWith(cmp, y), s[..|s| - 1], s[|s| - 1];
      var sorted := SortBy(cmp, init);
      assert SortBy(cmp, s) == Insert(cmp, last, sorted);
      SortByStable(cmp, init, y);
      SortBySorted(cmp, init);
      InsertStable(cmp, last, sorted, y);
      assert Filter(p, SortBy(cmp, s)) == Filter(p, init) + Filter(p, [last]);
      FilterSnoc(p, s);
    }
  }


  /** Sorting an already sorted list changes nothing. */
  lemma SortByIdempotent(cmp: (Client, Client) -> int, s: seq<Client>)
    requires Antisymmetric(cmp) && Sorted(cmp, s)
    ensures SortBy(cmp, s) == s
  {
    forall i, j | 0 <= i < j < |s| ensures cmp(s[j], s[i]) >= 0 {
      assert cmp(s[i], s[j]) <= 0;
    }
    SortByKeepsUnswapped(cmp, s);
  }

  /** Sorting keeps a list in which no record is strictly before an earlier one. */
  lemma {:induction false} SortByKeepsUnswapped(cmp: (Client, Client) -> int, s: seq<Client>)
    requires forall i, j | 0 <= i < j < |s| :: cmp(s[j], s[i]) >= 0
    ensures SortBy(cmp, s) == s
  {
    if s != [] {
      var init, last := s[..|s| - 1], s[|s| - 1];
      assert s == init + [last];
      assert forall i, j | 0 <= i < j < |init| :: init[i] == s[i] && init[j] == s[j];
      SortByKeepsUnswapped(cmp, init);
      assert forall i | 0 <= i < |init| :: init[i] == s[i];
      InsertAtEnd(cmp, last, init);
    }
  }

  /** Stepping past a record that `x` does not precede keeps the insertion result. */
  lemma InsertStep(cmp: (Client, Client) -> int, x: Client, s: seq<Client>, k: nat)
    requires k < |s| && cmp(x, s[k]) >= 0
    ensures s[..k] + Insert(cmp, x, s[k..]) == s[..k + 1] + Insert(cmp, x, s[k + 1..])
  {
    var t := s[k..];
    assert t[0] == s[k] && t[1..] == s[k + 1..];
    InsertPast(cmp, x, t);
    assert s[..k + 1] == s[..k] + [s[k]];
  }

  /** A record that precedes the head of `t` (or meets an empty `t`) goes first. */
  lemma InsertFront(cmp: (Client, Client) -> int, x: Client, t: seq<Client>)
    requires t == [] || cmp(x, t[0]) < 0
    ensures Insert(cmp, x, t) == [x] + t
  {
  }

  /** Insertion of one record, by a scan for its slot. */
  method InsertSorted(cmp: (Client, Client) -> int, x: Client, s: seq<Client>) returns (r: seq<Client>)
    ensures r == Insert(cmp, x, s)
  {
    var k := 0;
    ghost var goal := Insert(cmp, x, s);
    assert s[..0] == [] && s[0..] == s;
    while k < |s| && cmp(x, s[k]) >= 0
      invariant 0 <= k <= |s|
      invariant s[..k] + Insert(cmp, x, s[k..]) == goal
    {
      InsertStep(cmp, x, s, k);
      k := k + 1;
    }
    InsertFront(cmp, x, s[k..]);
    r := s[..k] + ([x] + s[k..]);
  }

  /** The `.sort(...)` step: orders the records stably by the chosen key. */
  method SortClients(sortBy: SortKey, s: seq<Client>) returns (r: seq<Client>)
    ensures r == SortBy(CmpOf(sortBy), s)
    ensures Sorted(CmpOf(sortBy), r) && multiset(r) == multiset(s)
    ensures forall y :: Filter(TiedWith(CmpOf(sortBy), y), r) == Filter(TiedWith(CmpOf(sortBy), y), s)
  {
    var cmp := CmpOf(sortBy);
    r := [];
    for i := 0 to |s|
      invariant r == SortBy(cmp, s[..i])
    {
      ghost var prefix := s[..i + 1];
      assert prefix[..|prefix| - 1] == s[..i] && prefix[|prefix| - 1] == s[i];
      r := InsertSorted(cmp, s[i], r);
    }
    assert s[..|s|] == s;
    CompareConsistent(sortBy);
    SortBySorted(cmp, s);
    forall y ensures Filter(TiedWith(cmp, y), r) == Filter(TiedWith(cmp, y), s) {
      SortByStable(cmp, s, y);
    }
  }

  // ---------------------------------------------------------------------
  // The list shown

  /** What the list shows: the records passing the filter, stably sorted. */
  function Visible(clients: seq<Client>, term: string, filterStatus: string, sortBy: string, now: Millis): (r: seq<Client>)
    ensures Sorted(CmpOf(SortKeyOf(sortBy)), r)
    ensures multiset(r) == multiset(Filter(KeepPred(term, filterStatus, now), clients))
    ensures |r| <= |clients|
  {
    CompareConsistent(SortKeyOf(sortBy));
    SortBySorted(CmpOf(SortKeyOf(sortBy)), Filter(KeepPred(term, filterStatus, now), clients));
    SortBy(CmpOf(SortKeyOf(sortBy)), Filter(KeepPred(term, filterStatus, now), clients))
  }

  /**
   * `filteredClients`: filter, then sort. The result is a permutation of a
   * subsequence of the input holding exactly the records that pass the
   * filter, ordered by the comparator; the header's count is its length.
   */
  method FilteredClients(clients: seq<Client>, term: string, filterStatus: string, sortBy: string, now: Millis)
    returns (r: seq<Client>, count: nat)
    ensures r == Visible(clients, term, filterStatus, sortBy, now)
    ensures IsSubseq(Filter(KeepPred(term, filterStatus, now), clients), clients)
    ensures multiset(r) == multiset(Filter(KeepPred(term, filterStatus, now), clients))
    ensures forall c :: c in r <==> c in clients && Keep(c, term, filterStatus, now)
    ensures Sorted(CmpOf(SortKeyOf(sortBy)), r)
    ensures count == |r|
  {
    var keep := KeepPred(term, filterStatus, now);
    var kept := Filter(keep, clients);
    FilterIsSubseq(keep, clients);
    FilterMembers(keep, clients);
    r := SortClients(SortKeyOf(sortBy), kept);
    forall c ensures c in r <==> c in clients && Keep(c, term, filterStatus, now) {
      assert c in r <==> c in multiset(r);
      assert c in kept <==> c in multiset(kept);
      assert keep(c) == Keep(c, term, filterStatus, now);
    }
    count := |r|;
  }

  /** With an empty search and "all", the list shows every record, only reordered. */
  lemma ShowAllIsPermutation(clients: seq<Client>, sortBy: string, now: Millis)
    ensures Filter(KeepPred("", "all", now), clients) == clients
    ensures multiset(Visible(clients, "", "all", sortBy, now)) == multiset(clients)
  {
    forall i | 0 <= i < |clients| ensures KeepPred("", "all", now)(clients[i]) {
      EmptySearchMatchesAll(clients[i]);
    }
    FilterKeepsAll(KeepPred("", "all", now), clients);
  }
}
