# Sophie's CRM: the client-record derivations, in Dafny

Sophie's CRM is a small React application for a marketing agency. It keeps a
list of clients. Each client has contact details, a review count, two money
amounts, three dates and free-text notes. This project models the logic under
the views that derives data from those records:

- **schema** (`shared/schema.ts`): the stored record, the insert record that
  validates the amount strings against `^\d+(\.\d{1,2})?$`, and the column
  defaults. The recogniser is a recursive string predicate, proved equal to
  the regular expression. `Cents` gives an accepted amount's exact value.
- **client list** (`client/src/components/ClientList.tsx`):
  - `getDateStatus`;
  - the search-then-status filter;
  - the comparator for the three sort keys;
  - the stable sort. This is an insertion-sort method proved equal to a
    recursive reference function. That function is proved to give a sorted
    permutation that keeps ties in input order.
- **client card** (`client/src/components/ClientCard.tsx`):
  - the card's own copy of `getDateStatus`, proved equal to the list's;
  - the badge colours;
  - `formatCurrency` as `$` plus units, a dot and two decimals;
  - the rules for showing the review count and the notes. The notes are cut
    by JavaScript string length, which counts UTF-16 code units, so the notes
    line is modelled as a sequence of code units.
- **dashboard** (`src/components/Dashboard.tsx`):
  - the four metrics;
  - the three urgency lists, which use their own seven-day millisecond window
    and a strict `< today`. Lemmas show where this differs from the rounded-day
    rule;
  - the "first five, then +N more" rule;
  - the example page's figures.
- **form** (`src/components/ClientForm.tsx`): the default values, the three
  date pickers kept as state, and the record handed on at submit.
- **app** (`src/App.tsx`): the `Router`. It is a class holding the client
  list, the record being edited, the current view and the mounted form. Its
  handlers delete, replace-or-append, and switch views. The add and edit
  views render the same form element without a key, so switching between
  them keeps the mounted form and its state.

Representation choices:

- Dates are integer milliseconds since the Unix epoch.
- The current time (`new Date()`) and a new record's id (`Date.now()`) are
  parameters.
- An amount on a record is `None` (SQL null) or a string the insert schema
  accepts. Every figure computed from an amount is in integer cents.

## Model

| member | source | states |
|---|---|---|
| Schema.AmountValidIffPattern | shared/schema.ts:24-25 | The recursive recogniser accepts a string exactly when it is one or more digits, optionally followed by a dot and one or two digits |
| Schema.AfterDigitSplits | shared/schema.ts:24-25 | What may follow the first digit is exactly: digits up to the first dot, then, if there is a dot, one or two digits and nothing else |
| Schema.AmountValidSplits | shared/schema.ts:24-25 | A string is accepted exactly when it splits at its first dot into a non-empty digit run and an optional fraction of one or two digits |
| Schema.AmountValidEnds | shared/schema.ts:24-25 | An accepted amount starts and ends with a digit, and every non-empty run of digits is accepted |
| Schema.AfterDigitEnds | shared/schema.ts:24-25 | What may follow the first digit ends in a digit when non-empty, and any run of digits may follow it |
| Schema.SplitIsAtDot | shared/schema.ts:24 | The only place the pattern can split a string is at its first dot, or at the end |
| Schema.DotPos | shared/schema.ts:24 | The result is the position of the first dot, or the length when there is none |
| Schema.AmountShape | shared/schema.ts:24-25 | An accepted amount has a non-empty digit integer part and a digit fraction of at most two characters, which is empty exactly when there is no dot |
| Schema.CentsAreExact | shared/schema.ts:14-15 | An accepted amount's decimal value (all its digits read as one number over 10 to the fraction length) is exactly `Cents / 100`, so integer cents lose nothing |
| Schema.CentsBounds | shared/schema.ts:24-25 | An amount is worth its integer part in whole units plus less than one unit: `100 * int <= Cents < 100 * int + 100` |
| Schema.FractionBelowUnit | shared/schema.ts:24 | One or two fractional digits are worth less than 100 cents |
| Schema.DigitsBelowPow10 | shared/schema.ts:24 | A run of n digits denotes a number below 10^n |
| Schema.CentsOfWhole | shared/schema.ts:24 | An amount without a dot is worth its digits times 100 cents |
| Schema.CentsOfSplit | shared/schema.ts:24-25 | An amount `i.f` is worth `i` units plus `f` read as hundredths |
| Schema.AmountExamples | shared/schema.ts:24-25 | "", ".5", "5.", "5.123", "-1" and "1,000" are rejected; "0", "5.5" and "2500.00" are accepted |
| Schema.ParseInsert | shared/schema.ts:21-26 | Validation succeeds exactly when both amounts match the pattern, and then passes every field through unchanged; on failure each error names an amount field that fails, with the schema's message, and every failing amount gets one |
| Schema.InsertRow | shared/schema.ts:6-19 | The stored row takes the generated id and every given field; a left-out review count becomes the default 0, and other left-out nullable columns become null |
| Schema.DefaultAmountIsZero | shared/schema.ts:14-15 | The amount default "0.00" is itself accepted and is worth 0 cents |
| Basics.Filter | client/src/components/ClientList.tsx:40-66 | `Array.prototype.filter` keeps no more elements than it is given |
| Basics.FilterMembers | client/src/components/ClientList.tsx:40-66 | An element is kept exactly when it is in the input and passes the test |
| Basics.FilterMultiplicity | src/components/Dashboard.tsx:29-45 | An element passing the test is kept as many times as it occurs; any other is dropped |
| Basics.FilterIsSubseq | client/src/components/ClientList.tsx:40-66 | The kept elements are in input order |
| Basics.FilterAppend | src/components/Dashboard.tsx:29-45 | Filtering a concatenation is concatenating the filtered parts |
| Basics.FilterRemovesOne | src/App.tsx:79 | When every element but the k-th passes the test and the k-th fails it, the filter removes exactly the k-th |
| ClientList.GetDateStatus | client/src/components/ClientList.tsx:29-38 | Neutral exactly when there is no date; otherwise overdue exactly when the date is a full day or more before now, due soon exactly when it is less than a day past and at most seven days ahead, and upcoming beyond that |
| ClientList.Lower | client/src/components/ClientList.tsx:44-45 | Lower-casing keeps the length and lower-cases each character |
| ClientList.ContainsIffOccurs | client/src/components/ClientList.tsx:44-46 | `includes` holds exactly when the needle occurs at some offset of the string |
| ClientList.MatchesSearchIffOccurs | client/src/components/ClientList.tsx:43-46 | A record matches exactly when the lower-cased term occurs at some offset of the lower-cased name or e-mail, or the raw term at some offset of the raw phone number |
| ClientList.EmptySearchMatchesAll | client/src/components/ClientList.tsx:43-48 | An empty search term matches every record |
| ClientList.StatusMatches | client/src/components/ClientList.tsx:51-65 | "all" and every value other than "overdue", "due-soon" and "upcoming" keep every record; "upcoming" keeps only records with both dates set; a record with neither date set is kept by exactly those other values |
| ClientList.StatusFilterInMillis | client/src/components/ClientList.tsx:51-65 | "overdue" and "due-soon" keep a record when either date has that status; "upcoming" keeps it only when both dates are more than seven days ahead; each is stated in milliseconds |
| ClientList.StrCmp | client/src/components/ClientList.tsx:70 | The name comparison returns -1, 0 or 1, and 0 exactly for equal names |
| ClientList.StrCmpAntisymmetric | client/src/components/ClientList.tsx:70 | Swapping the names negates the comparison |
| ClientList.StrCmpTransitive | client/src/components/ClientList.tsx:70 | "Not after" in name order is transitive |
| ClientList.CompareMeaning | client/src/components/ClientList.tsx:67-80 | "name" puts the smaller name first and ties only equal names; "amount" puts the larger amount paid first and ties equal amounts; "next-contact" puts a dated record before an undated one and the earlier date first; any other key ties every pair |
| ClientList.CompareAntisymmetric | client/src/components/ClientList.tsx:67-80 | For every sort key, swapping the records flips the comparator's sign, and ties are symmetric |
| ClientList.CompareTransitive | client/src/components/ClientList.tsx:67-80 | For every sort key, "may precede" is transitive, including the rule that undated records go last and tie with each other |
| ClientList.CompareConsistent | client/src/components/ClientList.tsx:67-80 | The comparator of every key is antisymmetric and transitive, which is what a sort needs |
| ClientList.StrictBefore | client/src/components/ClientList.tsx:67-80 | With a consistent comparator, strictly before followed by may-precede is strictly before |
| ClientList.InsertPermutes | client/src/components/ClientList.tsx:67-81 | One insertion step adds exactly the new record: the result is the old list plus it, as a multiset |
| ClientList.InsertKeepsSorted | client/src/components/ClientList.tsx:67-81 | Insertion into a sorted list keeps it sorted |
| ClientList.InsertStable | client/src/components/ClientList.tsx:67-81 | Among the records tied with any record, the inserted one comes after those already present, which keep their order |
| ClientList.InsertAtEnd | client/src/components/ClientList.tsx:67-81 | A record that precedes nothing in the list is appended |
| ClientList.SortBy | client/src/components/ClientList.tsx:67-81 | The sort's result is a permutation of its input |
| ClientList.SortBySorted | client/src/components/ClientList.tsx:67-81 | With a consistent comparator, the result is ordered: every record may precede every later one |
| ClientList.SortByStable | client/src/components/ClientList.tsx:67-81 | The sort is stable: for every record, the records tied with it appear in the result in their input order |
| ClientList.SortByIdempotent | client/src/components/ClientList.tsx:67-81 | Sorting an already sorted list leaves it unchanged |
| ClientList.SortByKeepsUnswapped | client/src/components/ClientList.tsx:67-81 | A list in which no record is strictly before an earlier one comes back from the sort unchanged |
| ClientList.InsertSorted | client/src/components/ClientList.tsx:67-81 | The scan for the insertion slot yields exactly the specified insertion |
| ClientList.SortClients | client/src/components/ClientList.tsx:67-81 | The loop of insertions is the specified sort, so its result is sorted by the chosen key, a permutation of the input, and stable |
| ClientList.Visible | client/src/components/ClientList.tsx:40-81 | What the list shows is ordered by the chosen key, holds the records that pass the filter with their multiplicities, and is no longer than the input |
| ClientList.FilteredClients | client/src/components/ClientList.tsx:40-91 | What the list shows holds exactly the input records that pass search and status filtering, as a permutation of that subsequence, ordered by the chosen key; the header count is its length |
| ClientList.ShowAllIsPermutation | client/src/components/ClientList.tsx:40-81 | With an empty search and "all", the filter keeps every record and the list is a permutation of the whole input |
| ClientCard.CardDateStatus | client/src/components/ClientCard.tsx:24-33 | The card's copy of `getDateStatus` agrees with the list's for every date and every now |
| ClientCard.StatusColor | client/src/components/ClientCard.tsx:35-42 | Destructive exactly for "overdue", default exactly for "due-soon", secondary exactly for "upcoming" and for anything else |
| ClientCard.BadgeFor | client/src/components/ClientCard.tsx:24-42 | A date's badge is the colour of its status |
| ClientCard.BadgeInMillis | client/src/components/ClientCard.tsx:35-42 | A badge is destructive exactly for a date a day or more past, default from less than a day past to seven days ahead, and secondary for no date or a later date |
| ClientCard.NatToStringDigits | client/src/components/ClientCard.tsx:16 | The whole-units numeral is a non-empty digit string that denotes its number and has a leading 0 only for zero |
| ClientCard.RenderCents | client/src/components/ClientCard.tsx:16 | `toFixed(2)` over cents: at least four characters, a dot third from the end, then the tens and units digits of the cents below 100 |
| ClientCard.RenderCentsValid | client/src/components/ClientCard.tsx:16 | Rendering cents with two decimals gives an accepted amount with a two-digit fraction that is worth exactly those cents |
| ClientCard.FormatCurrency | client/src/components/ClientCard.tsx:14-17 | The figure is `$` and an accepted amount with exactly two decimals, worth the stored amount to the cent, or 0 when the amount is null |
| ClientCard.FormatCurrencyIdempotent | client/src/components/ClientCard.tsx:14-17 | Reading the shown figure back as an amount and formatting it again gives the same figure |
| ClientCard.FormatCurrencyInjective | client/src/components/ClientCard.tsx:16 | Two amounts show the same figure exactly when they are worth the same number of cents |
| ClientCard.RenderSmall | client/src/components/ClientCard.tsx:16 | Under ten dollars the figure is one unit digit, a dot and two decimals |
| ClientCard.FormatCurrencyCents | client/src/components/ClientCard.tsx:14-17 | The figure shown is the two-decimal rendering of the amount's cents |
| ClientCard.FormatMissing | client/src/components/ClientCard.tsx:15 | A null amount shows "$0.00" |
| ClientCard.FormatOneDecimal | client/src/components/ClientCard.tsx:16 | "5.5" shows "$5.50" |
| ClientCard.FormatLeadingZeros | client/src/components/ClientCard.tsx:16 | "007" shows "$7.00" |
| ClientCard.ReviewsShown | client/src/components/ClientCard.tsx:128 | The review count is shown exactly when it is set and positive, and then as stored |
| ClientCard.Utf16Char | client/src/components/ClientCard.tsx:141 | A character below U+10000 is one code unit, its own value; any other is a high surrogate followed by a low surrogate |
| ClientCard.Utf16 | client/src/components/ClientCard.tsx:141 | A string's UTF-16 form has at least as many code units as the string has characters, and is empty exactly when the string is |
| ClientCard.Utf16Append | client/src/components/ClientCard.tsx:141 | Encoding a concatenation is concatenating the encodings |
| ClientCard.Utf16Bmp | client/src/components/ClientCard.tsx:141 | Below U+10000, each character is exactly one code unit of its own value |
| ClientCard.Utf16BmpPrefix | client/src/components/ClientCard.tsx:141 | Below U+10000, the first n code units encode the first n characters |
| ClientCard.NotesShown | client/src/components/ClientCard.tsx:137-141 | Notes are shown exactly when set and non-empty; notes of at most 100 UTF-16 code units are shown verbatim; longer ones become their first 100 code units and "..."; nothing shown exceeds 103 code units |
| ClientCard.NotesShownBmp | client/src/components/ClientCard.tsx:141 | For notes written entirely below U+10000 the cut is by characters: up to 100 characters verbatim, otherwise the first 100 characters and "..." |
| ClientCard.NotesCutSplitsSurrogate | client/src/components/ClientCard.tsx:141 | 99 letters and one emoji are 100 characters but 101 code units, so the card cuts between the emoji's surrogates and shows a lone high surrogate before "..." |
| ClientCard.Card | client/src/components/ClientCard.tsx:13-145 | A card shows the name, e-mail and phone as stored; the paid amount and next month's payment as `formatCurrency` shows them, `$` and an accepted amount worth the record's cents (0 when null); each date's badge by its status; and exactly the review and notes lines their rules give |
| ClientCard.CardAmounts | client/src/components/ClientCard.tsx:14-17 | The card's two amounts are exactly `formatCurrency` of the stored amounts, each with two decimals |
| Dashboard.Sum | src/components/Dashboard.tsx:13-23 | A running sum of non-negative figures is non-negative |
| Dashboard.ComputeMetrics | src/components/Dashboard.tsx:12-23 | The client count is the list's length, and both revenue totals are non-negative (the review total may be negative, as a stored count may be) |
| Dashboard.SumAppend | src/components/Dashboard.tsx:13-23 | A running sum over a concatenation is the sum of the two sums |
| Dashboard.SumNonNegative | src/components/Dashboard.tsx:13-19 | A sum of non-negative figures is non-negative and at least each figure |
| Dashboard.MetricsAdditive | src/components/Dashboard.tsx:12-23 | All four metrics are 0 for no clients and add up figure by figure over concatenated lists |
| Dashboard.MetricsOfOne | src/components/Dashboard.tsx:12-23 | One record adds one client, its paid and agreed amounts in cents (0 when null) and its review count (0 when null); with `MetricsAdditive` this fixes every total for every list |
| Dashboard.RevenueBounds | src/components/Dashboard.tsx:13-19 | Both revenue totals are non-negative and at least each record's own amount |
| Dashboard.UpcomingContacts | src/components/Dashboard.tsx:29-33 | The list is an order-preserving subsequence holding exactly the records whose next contact is set and between today and seven days ahead, inclusive |
| Dashboard.UpcomingCommissions | src/components/Dashboard.tsx:35-39 | The same rule over the commission date |
| Dashboard.OverdueTasks | src/components/Dashboard.tsx:41-45 | The list is an order-preserving subsequence holding exactly the records with either date set and strictly before today |
| Dashboard.UrgencyListCounts | src/components/Dashboard.tsx:29-45 | Each list holds every record its test accepts exactly as many times as the client list does, and no other record |
| Dashboard.UpcomingContactOverdueOnlyByCommission | src/components/Dashboard.tsx:29-45 | A listed upcoming contact is never overdue through its contact date, and it is an overdue task exactly when its commission date is past |
| Dashboard.FirstShown | src/components/Dashboard.tsx:127 | A panel lists at most five entries, a prefix of the list: the whole list when it has five or fewer, and exactly its first five otherwise |
| Dashboard.MoreLine | src/components/Dashboard.tsx:142-145 | The "+N more" line appears exactly when the list is longer than five, and N is the list's length minus five |
| Dashboard.ShownAndMoreCoverList | src/components/Dashboard.tsx:127-145 | The listed entries followed by the rest are the whole list, and the number listed plus N is the list's length |
| Dashboard.RecentActivity | src/components/Dashboard.tsx:230 | Recent activity shows the first five clients (or all, when fewer) in list order |
| Dashboard.InWeekIsDueSoon | src/components/Dashboard.tsx:26-33 | Every date in the dashboard's week window is "due soon" under the rounded-day rule |
| Dashboard.DueSoonOutsideWeek | src/components/Dashboard.tsx:26-33 | A due-soon date is outside the dashboard's window exactly when it is less than a day in the past |
| Dashboard.OverdueRulesDiffer | src/components/Dashboard.tsx:41-45 | Every date overdue by the rounded-day rule is overdue on the dashboard, but a date one millisecond past is overdue only on the dashboard |
| Dashboard.DollarsValid | src/components/examples/Dashboard.tsx:6-63 | A whole dollar figure written with ".00" is an accepted amount worth that many hundred cents |
| Dashboard.AmountsInDollars | src/components/examples/Dashboard.tsx:6-63 | A record whose amounts are whole dollars has exactly those figures in cents |
| Dashboard.SumOfFour | src/components/Dashboard.tsx:13-23 | A sum over four records is the sum of their four figures |
| Dashboard.ExampleMetrics | src/components/examples/Dashboard.tsx:6-63 | The four example clients give 4 clients, 10050.00 revenue, 12900.00 projected and 98 reviews |
| Dashboard.UrgencyOfFour | src/components/Dashboard.tsx:29-45 | For four records, each list holds exactly the records its test accepts, in list order |
| Dashboard.ListOfFour | src/components/Dashboard.tsx:29-45 | Over four records, a list is the concatenation of what its test keeps of each record: the record itself when accepted, nothing otherwise |
| Dashboard.ExampleDatesOnJan24 | src/components/examples/Dashboard.tsx:6-63 | Where each example client's contact and commission dates fall relative to the week from 24 January 2024 |
| Dashboard.ExampleUrgencyLists | src/components/examples/Dashboard.tsx:6-63 | On 24 January 2024 the example's upcoming contacts are Tech Solutions and Global Marketing Group, the commission due is Acme's (on the window's closing edge), and the overdue tasks are Global Marketing Group and Startup Ventures |
| Dashboard.DatesOn | src/components/Dashboard.tsx:29-45 | The three tests, read off a record's two set dates |
| ClientForm.OrText | src/components/ClientForm.tsx:36-43 | A field or its fallback: the value when set and non-empty, otherwise the fallback |
| ClientForm.Defaults | src/components/ClientForm.tsx:35-44 | With no client, the blank values ("", 0 reviews, "0.00" amounts); with a client, each of its fields, with null ones replaced by those same defaults |
| ClientForm.Draft | src/components/ClientForm.tsx:33-34 | The resolver sees every registered input and no date keys |
| ClientForm.WithPickerDates | src/components/ClientForm.tsx:47-53 | The submitted record has the three date keys set from the pickers, and is otherwise the validated data |
| ClientForm.SubmitResult | src/components/ClientForm.tsx:33-56 | Saving succeeds exactly when both amounts are valid; the record is then the typed-in values with the three picker dates; otherwise the schema's errors come back |
| ClientForm.DefaultsValidate | src/components/ClientForm.tsx:33-44 | The form's starting values always pass the schema |
| ClientForm.Form.constructor | src/components/ClientForm.tsx:23-44 | Mounting the form for a client, or for none: each picker starts at the client's date, or unset; the default values are `Defaults`. State set at mount is not re-read from later props |
| ClientForm.Form.SetTestAdCallDate | src/components/ClientForm.tsx:176 | The picker changes its own date and nothing else |
| ClientForm.Form.SetDateOfNextContact | src/components/ClientForm.tsx:256 | The picker changes its own date and nothing else |
| ClientForm.Form.SetDateCommissionsDue | src/components/ClientForm.tsx:280 | The picker changes its own date and nothing else |
| ClientForm.Form.Submit | src/components/ClientForm.tsx:47-54 | Saving succeeds exactly when both amounts are valid; the record handed on is the typed-in values with the current picker dates; failures return the schema's errors |
| App.Ids | src/App.tsx:78-98 | The ids of the records, one per record, in order |
| App.RemoveById | src/App.tsx:78-79 | Deleting keeps an order-preserving subsequence holding exactly the records whose id differs, each as many times as before, and no record with that id |
| App.RemoveByIdRemovesOne | src/App.tsx:78-79 | With unique ids, deleting the k-th record's id removes exactly that record |
| App.RemoveKeepsUnique | src/App.tsx:78-79 | Deleting never creates a clash of ids |
| App.SubseqKeepsUnique | src/App.tsx:78-79 | A subsequence of a list with unique ids has unique ids |
| App.SubseqMembers | src/App.tsx:78-79 | Every member of a subsequence is a member of the list |
| App.ReplaceById | src/App.tsx:86-90 | Editing keeps the length and replaces exactly the records with the edited id, leaving the others as they were |
| App.ReplaceKeepsIds | src/App.tsx:86-90 | Replacing by a record with the same id leaves the ids, and their uniqueness, unchanged |
| App.Merge | src/App.tsx:88 | `{...editingClient, ...data}`: the id is kept; the text fields and amounts are the data's; each optional key is the data's when given and the edited record's otherwise |
| App.NewClient | src/App.tsx:94-97 | A new record has the given id, and is what the spread gives over a blank record |
| App.AppendFreshKeepsUnique | src/App.tsx:98 | Appending a record whose id is unused keeps ids unique |
| App.EditUnchangedRoundTrip | src/App.tsx:83-90 | Opening a record with all fields set in the form and saving unchanged gives back exactly that record |
| App.EditFillsNullAmounts | src/App.tsx:83-90 | Saving a record with a null amount unchanged stores "0.00", so the record changes |
| App.SeedIdsUnique | src/App.tsx:23-66 | The three starting records have the distinct ids "1", "2" and "3" |
| App.IdsOfThree | src/App.tsx:23-66 | Three records have unique ids exactly when their ids differ pairwise |
| App.Router.constructor | src/App.tsx:19-66 | The application starts on the dashboard with nothing being edited, no form mounted, and the three starting records, whose ids are unique |
| App.Router.Content | src/App.tsx:109-134 | The dashboard and the list render over the current records; both form views render the form given the record being edited, which is set exactly in the edit view (what the form then shows is the mounted form's state) |
| App.Router.Show | src/App.tsx:109-134 | A form view entered from another view mounts a new form for the record being edited; moving between the two form views keeps the mounted form; any other view unmounts it; nothing else changes |
| App.Router.HandleAddClient | src/App.tsx:68-71 | Clears the record being edited and shows the add view; from the dashboard or the list a blank form is mounted, but pressed on a form view (the navigation button, line 173) the mounted form is kept with its values and dates; the records are untouched |
| App.Router.HandleEditClient | src/App.tsx:73-76 | Shows the edit view for the given record, mounting a form on it when entered from another view; the records are untouched |
| App.Router.HandleDeleteClient | src/App.tsx:78-81 | The records become the list without that id; the view, the form and the record being edited stay; unique ids stay unique |
| App.Router.HandleSubmitClient | src/App.tsx:83-102 | When a record is being edited, every record with its id is replaced by the merge; otherwise exactly one new record is appended; the list view follows and the form is unmounted; the record being edited is not cleared; unique ids stay unique given a fresh new id |
| App.Router.SubmitForm | src/components/ClientForm.tsx:47-56 | The Save button: the result is the mounted form's check of the typed-in values with its picker dates; on failure nothing changes; on success the data goes to `handleSubmitClient` with its replace-or-append and the list view |
| App.Router.HandleCancelForm | src/App.tsx:104-107 | Back to the list with nothing being edited, the form unmounted and the records untouched |
| App.Router.ShowDashboard | src/App.tsx:153 | Switches to the dashboard, unmounting any form, and changes nothing else |
| App.Router.ShowClients | src/App.tsx:163 | Switches to the list, unmounting any form, and changes nothing else |
| App.CopyUnderNewId | src/App.tsx:94-97 | The edit form's untouched values and dates, saved as a new record, give the edited record itself under the new id |
| App.EditThenAddCopies | src/App.tsx:68-130 | Editing a record, pressing "Add Client" and saving untouched values appends a copy of the record under the new id to the starting records |

## Left out

- Floating point. `parseFloat` and `toFixed(2)` are modelled over integer
  cents of pattern-valid amounts. A malformed stored amount string gives NaN
  in the dashboard sums and on the card, not 0; such a string is not
  representable on a record here.
- Double rounding of large amounts. From 2^46 units (about 7.04 × 10^13)
  upward, `parseFloat` no longer keeps the cent: "70368744177664.01" shows as
  "$70368744177664.02". Here every figure is exact integer cents, so
  `ClientCard.FormatCurrency`, the amount sort key `ClientList.PaidCents`
  and the sums of `Dashboard.ComputeMetrics` are exact where the source
  rounds. The floating-point rounding of the sums themselves is not modelled
  either.
- The empty string as a stored amount. In the source, `"" || "0"` reads it as
  zero. A record's amount here is null or pattern-valid, and the insert
  schema never accepts "".
- `toFixed` for amounts of 10^21 or more, and the database's decimal(10,2)
  overflow. Both are unbounded integers here.
- Locale behaviour:
  - `localeCompare` is ordinal character-code comparison;
  - `toLowerCase` changes ASCII letters only;
  - the dashboard's `Intl.NumberFormat` currency figures and
    `toLocaleDateString` are not modelled. The card shows dates only through
    their badge colour.
- Invalid `Date` values (`NaN` times) are not representable: a date is null
  or an integer.
- The ambient clock and id generation. `new Date()` and `Date.now()` are the
  `now`/`today` and `newId` parameters.
- `console.log`, JSX, CSS classes and test ids.
- The `NotFound` branch of `renderContent`. The view type has only the four
  views, so that branch cannot be reached.
- react-hook-form and zod plumbing beyond what they compute.
  `ClientForm.Draft` and `Schema.ParseInsert` stand for the registered inputs
  and the resolver. Only the two amount refinements are checked.
- The database's `gen_random_uuid()`: the stored id is a parameter of
  `Schema.InsertRow`.
- The theme toggle, the query client and `src/pages/not-found.tsx`.
- Empty contact fields. drizzle-zod's `notNull()` text columns accept the
  empty string, so a record may be saved with an empty name, e-mail or
  phone number; the model accepts it too.
- ClientForm.Form.Submit: a cleared review-count input gives NaN
  (`valueAsNumber`, src/components/ClientForm.tsx:190), which the schema's
  number check rejects with no message shown for that field. The typed-in
  review count is an integer here, so this failure is not modelled; the same
  holds for `ClientForm.SubmitResult` and `App.Router.SubmitForm`.
- How a browser draws the lone surrogate left when the notes cut splits a
  pair (`ClientCard.NotesCutSplitsSurrogate`). The model stops at the code
  units.
- The form's typed-in values as state. They live in react-hook-form and are
  the `values` argument of `Submit`; a kept form's fields start from its
  `defaults`, which `App.EditThenAddCopies` saves untouched.
- Id clashes on add. The new id comes from the clock in the source and is a
  parameter here. Unique ids are shown to stay unique only when that id is
  not already in use.
