/**
 * The application shell (src/App.tsx): the in-memory client list, the
 * client being edited, the view on screen, and the handlers that change
 * them.
 */
module App {
  import opened Basics
  import opened Schema
  import ClientForm

  datatype View = DashboardView | ClientsView | AddClientView | EditClientView

  // ---------------------------------------------------------------------
  // Operations on the list

  /** The ids of the records, in list order. */
  function Ids(s: seq<Client>): (r: seq<string>)
    ensures |r| == |s| && forall i | 0 <= i < |s| :: r[i] == s[i].id
  {
    if s == [] then [] else [s[0].id] + Ids(s[1..])
  }

  /** No two records share an id. */
  predicate UniqueIds(s: seq<Client>) {
    forall i, j | 0 <= i < j < |s| :: s[i].id != s[j].id
  }

  function IdIsNot(id: string): Client -> bool {
    (c: Client) => c.id != id
  }

  /** `prev.filter(c => c.id !== clientId)`. */
  function RemoveById(s: seq<Client>, id: string): (r: seq<Client>)
    ensures IsSubseq(r, s)
    ensures forall c :: c in r <==> c in s && c.id != id
    ensures forall c :: multiset(r)[c] == if c.id != id then multiset(s)[c] else 0
  {
    FilterIsSubseq(IdIsNot(id), s);
    FilterMembers(IdIsNot(id), s);
    FilterMultiplicity(IdIsNot(id), s);
    Filter(IdIsNot(id), s)
  }

  /** With unique ids, deleting the id of the `k`-th record removes just that record. */
  lemma RemoveByIdRemovesOne(s: seq<Client>, k: nat)
    requires UniqueIds(s) && k < |s|
    ensures RemoveById(s, s[k].id) == s[..k] + s[k + 1..]
  {
    var p := IdIsNot(s[k].id);
    forall i | 0 <= i < |s| && i != k ensures p(s[i]) {
      if i < k { assert s[i].id != s[k].id; } else { assert s[k].id != s[i].id; }
    }
    FilterRemovesOne(p, s, k);
  }

  /** `prev.map(c => c.id === id ? v : c)`. */
  function ReplaceById(s: seq<Client>, id: string, v: Client): (r: seq<Client>)
    ensures |r| == |s|
    ensures forall i | 0 <= i < |s| :: r[i] == (if s[i].id == id then v else s[i])
  {
    if s == [] then [] else [if s[0].id == id then v else s[0]] + ReplaceById(s[1..], id, v)
  }

  /** Replacing by a record that keeps the id leaves the ids, and so their uniqueness, as they were. */
  lemma ReplaceKeepsIds(s: seq<Client>, id: string, v: Client)
    requires v.id == id
    ensures Ids(ReplaceById(s, id, v)) == Ids(s)
    ensures UniqueIds(ReplaceById(s, id, v)) <==> UniqueIds(s)
  {
  }

  /** Removing records never creates a clash of ids. */
  lemma RemoveKeepsUnique(s: seq<Client>, id: string)
    requires UniqueIds(s)
    ensures UniqueIds(RemoveById(s, id))
  {
    SubseqKeepsUnique(RemoveById(s, id), s);
  }

  lemma {:induction false} SubseqKeepsUnique(r: seq<Client>, s: seq<Client>)
    requires IsSubseq(r, s) && UniqueIds(s)
    ensures UniqueIds(r)
    decreases |s|
  {
    if r != [] {
      assert UniqueIds(s[1..]) by {
        forall i, j | 0 <= i < j < |s[1..]| ensures s[1..][i].id != s[1..][j].id {
          assert s[1..][i] == s[i + 1] && s[1..][j] == s[j + 1];
        }
      }
      if r[0] == s[0] && IsSubseq(r[1..], s[1..]) {
        SubseqKeepsUnique(r[1..], s[1..]);
        SubseqMembers(r[1..], s[1..]);
        forall j | 0 < j < |r| ensures r[0].id != r[j].id {
          assert r[j] == r[1..][j - 1];
          var m :| 0 <= m < |s[1..]| && s[1..][m] == r[j];
          assert s[m + 1] == r[j];
        }
        forall i, j | 0 <= i < j < |r| ensures r[i].id != r[j].id {
          if i > 0 {
            assert r[i] == r[1..][i - 1] && r[j] == r[1..][j - 1];
          }
        }
      } else {
        SubseqKeepsUnique(r, s[1..]);
      }
    }
  }

  /** Every element of a subsequence is an element of the sequence. */
  lemma {:induction false} SubseqMembers(r: seq<Client>, s: seq<Client>)
    requires IsSubseq(r, s)
    ensures forall j | 0 <= j < |r| :: exists m :: 0 <= m < |s| && s[m] == r[j]
    decreases |s|
  {
    if r != [] {
      if r[0] == s[0] && IsSubseq(r[1..], s[1..]) {
        SubseqMembers(r[1..], s[1..]);
        forall j | 0 <= j < |r| ensures exists m :: 0 <= m < |s| && s[m] == r[j] {
          if j == 0 {
            assert s[0] == r[0];
          } else {
            assert r[j] == r[1..][j - 1];
            var m :| 0 <= m < |s[1..]| && s[1..][m] == r[j];
            assert s[m + 1] == r[j];
          }
        }
      } else {
        SubseqMembers(r, s[1..]);
        forall j | 0 <= j < |r| ensures exists m :: 0 <= m < |s| && s[m] == r[j] {
          var m :| 0 <= m < |s[1..]| && s[1..][m] == r[j];
          assert s[m + 1] == r[j];
        }
      }
    }
  }

  /** A key of the submitted data overrides the record's value; a left-out key keeps it. */
  function Over<T>(f: Field<T>, old_: T): T {
    if f.Given? then f.value else old_
  }

  /** `{ ...editingClient, ...data }`: the edited record with every key the form sent. */
  function Merge(editing: Client, data: InsertClient): (c: Client)
    ensures c.id == editing.id
    ensures c.clientName == data.clientName && c.email == data.email
    ensures c.phoneNumber == data.phoneNumber && c.billingAddress == data.billingAddress
    ensures c.amountPaidOnCall == Some(data.amountPaidOnCall)
    ensures c.nextMonthAgreedPayment == Some(data.nextMonthAgreedPayment)
    ensures c.testAdCallDate == if data.testAdCallDate.Given? then data.testAdCallDate.value else editing.testAdCallDate
    ensures c.reviewsOrdered == if data.reviewsOrdered.Given? then data.reviewsOrdered.value else editing.reviewsOrdered
    ensures c.dateOfNextContact ==
      if data.dateOfNextContact.Given? then data.dateOfNextContact.value else editing.dateOfNextContact
    ensures c.dateCommissionsDue ==
      if data.dateCommissionsDue.Given? then data.dateCommissionsDue.value else editing.dateCommissionsDue
    ensures c.notes == if data.notes.Given? then data.notes.value else editing.notes
  {
    Client(editing.id, data.clientName, data.email, data.phoneNumber, data.billingAddress,
           Over(data.testAdCallDate, editing.testAdCallDate),
           Over(data.reviewsOrdered, editing.reviewsOrdered),
           Some(data.amountPaidOnCall), Some(data.nextMonthAgreedPayment),
           Over(data.dateOfNextContact, editing.dateOfNextContact),
           Over(data.dateCommissionsDue, editing.dateCommissionsDue),
           Over(data.notes, editing.notes))
  }

  /** `{ id: Date.now().toString(), ...data }`: a new record; a left-out key reads as null. */
  function NewClient(id: string, data: InsertClient): (c: Client)
    ensures c.id == id
    ensures c == Merge(Client(id, "", "", "", "", None, None, None, None, None, None, None), data)
  {
    Client(id, data.clientName, data.email, data.phoneNumber, data.billingAddress,
           OrNull(data.testAdCallDate), OrNull(data.reviewsOrdered),
           Some(data.amountPaidOnCall), Some(data.nextMonthAgreedPayment),
           OrNull(data.dateOfNextContact), OrNull(data.dateCommissionsDue), OrNull(data.notes))
  }

  /** Appending a record whose id is not yet used keeps ids unique. */
  lemma AppendFreshKeepsUnique(s: seq<Client>, c: Client)
    requires UniqueIds(s) && c.id !in Ids(s)
    ensures UniqueIds(s + [c])
  {
    forall i | 0 <= i < |s| ensures s[i].id != c.id {
      assert Ids(s)[i] == s[i].id;
    }
  }

  /**
   * Saving the edit form unchanged gives back the record being edited,
   * provided its review count, amounts and notes are set (null ones come
   * back as 0, "0.00" and "").
   */
  lemma EditUnchangedRoundTrip(c: Client)
    requires c.reviewsOrdered.Some? && c.notes.Some?
    requires c.amountPaidOnCall.Some? && c.nextMonthAgreedPayment.Some?
    ensures ClientForm.SubmitResult(ClientForm.Defaults(Some(c)), c.testAdCallDate,
                                    c.dateOfNextContact, c.dateCommissionsDue).Ok?
    ensures Merge(c, ClientForm.SubmitResult(ClientForm.Defaults(Some(c)), c.testAdCallDate,
                                             c.dateOfNextContact, c.dateCommissionsDue).value) == c
  {
    ClientForm.DefaultsValidate(Some(c));
  }

  /** A record with null amounts comes back from an unchanged edit with "0.00" amounts. */
  lemma EditFillsNullAmounts(c: Client)
    requires c.amountPaidOnCall.None?
    ensures var r := ClientForm.SubmitResult(ClientForm.Defaults(Some(c)), c.testAdCallDate,
                                             c.dateOfNextContact, c.dateCommissionsDue);
      r.Ok? && Merge(c, r.value).amountPaidOnCall == Some(DefaultAmount) && Merge(c, r.value) != c
  {
    ClientForm.DefaultsValidate(Some(c));
  }

  // ---------------------------------------------------------------------
  // The records the application starts with

  /** Midnight UTC of the seed records' dates, in milliseconds. */
  const Jan10: Millis := 1704844800000
  const Jan15: Millis := 1705276800000
  const Jan20: Millis := 1705708800000
  const Jan25: Millis := 1706140800000
  const Jan28: Millis := 1706400000000
  const Jan31: Millis := 1706659200000
  const Feb01: Millis := 1706745600000
  const Feb15: Millis := 1707955200000

  const AcmeCorporation: Client :=
    Client("1", "Acme Corporation", "contact@acme.com", "(555) 123-4567",
           "123 Business St, Suite 100, New York, NY 10001", Some(Jan15), Some(25),
           Some("2500.00"), Some("3500.00"), Some(Feb01), Some(Jan31),
           Some("Very responsive client. Interested in expanding their marketing budget next quarter."))

  const TechSolutionsInc: Client :=
    Client("2", "Tech Solutions Inc", "info@techsolutions.com", "(555) 987-6543",
           "456 Tech Avenue, Silicon Valley, CA 94101", Some(Jan20), Some(15),
           Some("1800.00"), Some("2200.00"), Some(Jan28), Some(Feb15),
           Some("Looking for long-term partnership. Discuss volume discounts."))

  const GlobalMarketingGroup: Client :=
    Client("3", "Global Marketing Group", "hello@globalmarketing.com", "(555) 456-7890",
           "789 Marketing Blvd, Chicago, IL 60601", Some(Jan10), Some(50),
           Some("5000.00"), Some("6000.00"), Some(Jan25), Some(Jan20),
           Some("Premium client. Always pays on time. Consider offering exclusive packages."))

  /** The three records the application starts with. */
  const SeedClients: seq<Client> := [AcmeCorporation, TechSolutionsInc, GlobalMarketingGroup]

  lemma SeedIdsUnique()
    ensures UniqueIds(SeedClients) && Ids(SeedClients) == ["1", "2", "3"]
  {
    IdsOfThree(AcmeCorporation, TechSolutionsInc, GlobalMarketingGroup);
  }

  /** Three records have unique ids exactly when their ids differ pairwise. */
  lemma IdsOfThree(a: Client, b: Client, c: Client)
    ensures Ids([a, b, c]) == [a.id, b.id, c.id]
    ensures UniqueIds([a, b, c]) <==> a.id != b.id && a.id != c.id && b.id != c.id
  {
    var s := [a, b, c];
    assert s[0] == a && s[1] == b && s[2] == c;
  }

  // ---------------------------------------------------------------------
  // What is on screen

  datatype Screen =
    | DashboardScreen(clients: seq<Client>)
    | ListScreen(clients: seq<Client>)
    | FormScreen(client: Option<Client>)

  // ---------------------------------------------------------------------
  // The router

  /** The two views that show the form: `renderContent` renders the same `ClientForm` element for both. */
  predicate IsFormView(v: View) {
    v == AddClientView || v == EditClientView
  }

  class Router {
    var clients: seq<Client>
    var editingClient: Option<Client>
    var currentView: View
    /**
     * The mounted form, present exactly while a form view is shown. The
     * element has no key, so moving between the add and the edit view
     * keeps it, with the picker dates and default values it was mounted
     * with.
     */
    var form: ClientForm.Form?

    /** The add form is only shown with nothing being edited; the edit form only with a record being edited. */
    predicate Valid()
      reads this
    {
      (currentView == AddClientView ==> editingClient.None?) &&
      (currentView == EditClientView ==> editingClient.Some?) &&
      (IsFormView(currentView) <==> form != null)
    }

    constructor()
      ensures Valid()
      ensures clients == SeedClients && editingClient.None? && currentView == DashboardView
      ensures UniqueIds(clients)
    {
      var seed := SeedClients;
      SeedIdsUnique();
      clients := seed;
      editingClient := None;
      currentView := DashboardView;
      form := null;
    }

    /** `renderContent`: the dashboard or the list over the current records, or the form given the record being edited. */
    function Content(): (s: Screen)
      reads this
      requires Valid()
      ensures currentView == DashboardView ==> s == DashboardScreen(clients)
      ensures currentView == ClientsView ==> s == ListScreen(clients)
      ensures currentView == AddClientView ==> s == FormScreen(None)
      ensures currentView == EditClientView ==> s.FormScreen? && s.client == editingClient && s.client.Some?
    {
      match currentView
      case DashboardView => DashboardScreen(clients)
      case ClientsView => ListScreen(clients)
      case _ => FormScreen(editingClient)
    }

    /**
     * Showing `next`: a form view entered from elsewhere mounts a new form
     * for the record being edited; moving between the two form views keeps
     * the mounted one; any other view unmounts it.
     */
    method Show(next: View)
      modifies this
      requires (next == AddClientView ==> editingClient.None?) && (next == EditClientView ==> editingClient.Some?)
      requires IsFormView(currentView) <==> form != null
      ensures Valid()
      ensures currentView == next && clients == old(clients) && editingClient == old(editingClient)
      ensures IsFormView(next) && IsFormView(old(currentView)) ==> form == old(form)
      ensures IsFormView(next) && !IsFormView(old(currentView)) ==>
        fresh(form) && form.defaults == ClientForm.Defaults(editingClient) &&
        form.testAdCallDate == (if editingClient.Some? then editingClient.value.testAdCallDate else None) &&
        form.dateOfNextContact == (if editingClient.Some? then editingClient.value.dateOfNextContact else None) &&
        form.dateCommissionsDue == (if editingClient.Some? then editingClient.value.dateCommissionsDue else None)
      ensures !IsFormView(next) ==> form == null
    {
      if !IsFormView(next) {
        form := null;
      } else if !IsFormView(currentView) {
        form := new ClientForm.Form(editingClient);
      }
      currentView := next;
    }

    /**
     * `handleAddClient`: nothing is edited and the add view is shown. From
     * the dashboard or the list this mounts a blank form; pressed while a
     * form is on screen (the navigation button), it keeps that form, so
     * the edit form's values and dates stay in the fields.
     */
    method HandleAddClient()
      modifies this
      requires Valid()
      ensures Valid()
      ensures editingClient.None? && currentView == AddClientView
      ensures clients == old(clients)
      ensures Content() == FormScreen(None)
      ensures IsFormView(old(currentView)) ==> form == old(form)
      ensures !IsFormView(old(currentView)) ==>
        fresh(form) && form.defaults == ClientForm.Defaults(None) &&
        form.testAdCallDate.None? && form.dateOfNextContact.None? && form.dateCommissionsDue.None?
    {
      editingClient := None;
      Show(AddClientView);
    }

    /** `handleEditClient`: the edit view for `c`, whose form opens on `c` when entered from the list. */
    method HandleEditClient(c: Client)
      modifies this
      requires Valid()
      ensures Valid()
      ensures editingClient == Some(c) && currentView == EditClientView
      ensures clients == old(clients)
      ensures Content() == FormScreen(Some(c))
      ensures IsFormView(old(currentView)) ==> form == old(form)
      ensures !IsFormView(old(currentView)) ==>
        fresh(form) && form.defaults == ClientForm.Defaults(Some(c)) &&
        form.testAdCallDate == c.testAdCallDate && form.dateOfNextContact == c.dateOfNextContact &&
        form.dateCommissionsDue == c.dateCommissionsDue
    {
      editingClient := Some(c);
      Show(EditClientView);
    }

    /** `handleDeleteClient`: drops every record with this id; the view, the form and the edited record stay. */
    method HandleDeleteClient(id: string)
      modifies this
      requires Valid()
      ensures Valid()
      ensures clients == RemoveById(old(clients), id)
      ensures editingClient == old(editingClient) && currentView == old(currentView) && form == old(form)
      ensures old(UniqueIds(clients)) ==> UniqueIds(clients)
    {
      if UniqueIds(clients) {
        RemoveKeepsUnique(clients, id);
      }
      clients := RemoveById(clients, id);
    }

    /**
     * `handleSubmitClient`: with a record being edited, every record with
     * its id becomes the edited record overlaid with the data; otherwise a
     * new record with the id `newId` is appended. Either way the list is
     * shown next (the form is unmounted), and the edited record is not
     * cleared.
     */
    method HandleSubmitClient(data: InsertClient, newId: string)
      modifies this
      requires Valid()
      ensures Valid()
      ensures old(editingClient).Some? ==>
        clients == ReplaceById(old(clients), old(editingClient).value.id, Merge(old(editingClient).value, data))
      ensures old(editingClient).None? ==> clients == old(clients) + [NewClient(newId, data)]
      ensures editingClient == old(editingClient) && currentView == ClientsView && form == null
      ensures old(UniqueIds(clients)) && (old(editingClient).Some? || newId !in Ids(old(clients))) ==>
        UniqueIds(clients)
    {
      if editingClient.Some? {
        var e := editingClient.value;
        ReplaceKeepsIds(clients, e.id, Merge(e, data));
        clients := ReplaceById(clients, e.id, Merge(e, data));
      } else {
        if UniqueIds(clients) && newId !in Ids(clients) {
          AppendFreshKeepsUnique(clients, NewClient(newId, data));
        }
        clients := clients + [NewClient(newId, data)];
      }
      Show(ClientsView);
    }

    /**
     * The form's Save button: the mounted form checks the typed-in
     * `values`; when they pass, its result goes to `handleSubmitClient`,
     * and when they fail nothing changes.
     */
    method SubmitForm(values: ClientForm.FormValues, newId: string) returns (r: Result<InsertClient, seq<FieldError>>)
      modifies this
      requires Valid() && IsFormView(currentView)
      ensures Valid()
      ensures r == ClientForm.SubmitResult(values, old(form.testAdCallDate), old(form.dateOfNextContact),
                                           old(form.dateCommissionsDue))
      ensures r.Err? ==> clients == old(clients) && currentView == old(currentView) && form == old(form)
      ensures r.Ok? && old(editingClient).Some? ==>
        clients == ReplaceById(old(clients), old(editingClient).value.id, Merge(old(editingClient).value, r.value))
      ensures r.Ok? && old(editingClient).None? ==> clients == old(clients) + [NewClient(newId, r.value)]
      ensures r.Ok? ==> currentView == ClientsView && form == null
      ensures editingClient == old(editingClient)
    {
      r := form.Submit(values);
      if r.Ok? {
        HandleSubmitClient(r.value, newId);
      }
    }

    /** `handleCancelForm`: back to the list, nothing being edited, the records untouched. */
    method HandleCancelForm()
      modifies this
      requires Valid()
      ensures Valid()
      ensures editingClient.None? && currentView == ClientsView && form == null
      ensures clients == old(clients)
    {
      editingClient := None;
      Show(ClientsView);
    }

    /** The "Dashboard" navigation button. */
    method ShowDashboard()
      modifies this
      requires Valid()
      ensures Valid()
      ensures currentView == DashboardView && form == null
      ensures clients == old(clients) && editingClient == old(editingClient)
    {
      Show(DashboardView);
    }

    /** The "Clients" navigation button. */
    method ShowClients()
      modifies this
      requires Valid()
      ensures Valid()
      ensures currentView == ClientsView && form == null
      ensures clients == old(clients) && editingClient == old(editingClient)
    {
      Show(ClientsView);
    }
  }

  /**
   * Editing a record, pressing "Add Client" and saving without touching
   * the fields appends a copy of the record under the new id: the kept
   * form still holds its values and dates, while the submit handler no
   * longer has a record being edited.
   */
  method EditThenAddCopies(c: Client, newId: string) returns (router: Router)
    requires c.reviewsOrdered.Some? && c.notes.Some?
    requires c.amountPaidOnCall.Some? && c.nextMonthAgreedPayment.Some?
    ensures router.clients == SeedClients + [c.(id := newId)]
    ensures router.editingClient.None? && router.currentView == ClientsView
  {
    router := new Router();
    router.ShowClients();
    router.HandleEditClient(c);
    router.HandleAddClient();
    CopyUnderNewId(c, newId);
    var r := router.SubmitForm(ClientForm.Defaults(Some(c)), newId);
  }

  /** The edit form's untouched values and dates, saved as a new record, are the record itself under the new id. */
  lemma CopyUnderNewId(c: Client, newId: string)
    requires c.reviewsOrdered.Some? && c.notes.Some?
    requires c.amountPaidOnCall.Some? && c.nextMonthAgreedPayment.Some?
    ensures var r := ClientForm.SubmitResult(ClientForm.Defaults(Some(c)), c.testAdCallDate,
                                             c.dateOfNextContact, c.dateCommissionsDue);
      r.Ok? && NewClient(newId, r.value) == c.(id := newId)
  {
    EditUnchangedRoundTrip(c);
    var r := ClientForm.SubmitResult(ClientForm.Defaults(Some(c)), c.testAdCallDate,
                                     c.dateOfNextContact, c.dateCommissionsDue);
    assert NewClient(newId, r.value) == Merge(c, r.value).(id := newId);
  }
}
