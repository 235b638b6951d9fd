/** components/contact-management.tsx: the page that owns the filter state,
    the contact limit, the unsynced counter, the filtered list handed to the
    list and the reminders, and the builders of the ADD_CONTACT and
    UPDATE_CONTACT payloads. */
module ContactManagement {
  import opened Common
  import opened ContactTypes
  import opened ContactReducer
  import opened ContactFilters
  import TypeAdapters
  import Recency
  import ContactProvider

  /** Dunbar's number. */
  const CONTACT_LIMIT: nat := 150

  /** `isAtContactLimit`; it also disables the Add button. */
  predicate AtContactLimit(contacts: seq<Contact>) {
    |contacts| >= CONTACT_LIMIT
  }

  // ---------------------------------------------------------------------------
  // Unsynced changes

  /** `contact._synced === false`: an unset flag does not count. */
  predicate IsUnsynced(c: Contact) {
    c.synced == Some(false)
  }

  /** `unsyncedChangesCount` */
  function UnsyncedCount(contacts: seq<Contact>): (n: nat)
    ensures n <= |contacts|
    ensures n == 0 <==> forall i :: 0 <= i < |contacts| ==> contacts[i].synced != Some(false)
  {
    var unsynced := Filter(contacts, IsUnsynced);
    assert unsynced != [] ==> unsynced[0] in contacts;
    |unsynced|
  }

  /** A new contact adds one to the count exactly when its flag is `false`;
      an undefined or `true` flag adds nothing. */
  lemma UnsyncedCountAppend(contacts: seq<Contact>, c: Contact)
    ensures UnsyncedCount(contacts + [c]) == UnsyncedCount(contacts) + (if c.synced == Some(false) then 1 else 0)
  {
    FilterAppend(contacts, [c], IsUnsynced);
    assert [c][1..] == [];
  }

  /** The counter shows exactly the number of contacts `syncWithServer` goes
      through. */
  lemma {:induction false} UnsyncedCountIsSyncQueue(contacts: seq<Contact>)
    ensures Filter(contacts, IsUnsynced) == ContactProvider.Unsynced(contacts)
    ensures UnsyncedCount(contacts) == |ContactProvider.Unsynced(contacts)|
    decreases |contacts|
  {
    if contacts != [] {
      UnsyncedCountIsSyncQueue(contacts[1..]);
    }
  }

  /** The Sync button is rendered when offline with something to upload. */
  predicate SyncButtonShown(s: ContactState) {
    s.offlineMode && UnsyncedCount(s.contacts) > 0
  }

  lemma SyncButtonShownIff(s: ContactState)
    ensures SyncButtonShown(s) <==>
      s.offlineMode && exists i :: 0 <= i < |s.contacts| && s.contacts[i].synced == Some(false)
  {
  }

  // ---------------------------------------------------------------------------
  // The filtered list

  /** The filter predicate: deleted contacts are hidden; the name is a
      case-insensitive substring match, the role too when set, the status
      and the category must be equal when set. The `date` filter is not read. */
  predicate Shown(c: Contact, f: FilterState) {
    c.deleted != Some(true)
    && Contains(ToLower(c.name), ToLower(f.name))
    && (f.role == "" || Contains(ToLower(c.role), ToLower(f.role)))
    && (f.status == "" || c.status == f.status)
    && (f.category == "" || c.category == f.category)
  }

  /** The `date` entry of the filters state never changes whether a contact
      is shown. */
  lemma DateFilterIgnored(c: Contact, f: FilterState, d: string)
    ensures Shown(c, f.(date := d)) == Shown(c, f)
  {
  }

  /** The store contacts that pass the filters, in store order. */
  function VisibleContacts(contacts: seq<Contact>, f: FilterState): (r: seq<Contact>)
    ensures |r| <= |contacts|
    ensures forall i :: 0 <= i < |r| ==> r[i] in contacts && Shown(r[i], f)
    ensures forall i :: 0 <= i < |contacts| && Shown(contacts[i], f) ==> contacts[i] in r
  {
    Filter(contacts, c => Shown(c, f))
  }

  /** `filteredContacts`: the visible contacts in the presentation shape. */
  function FilteredContacts(contacts: seq<Contact>, f: FilterState): (r: seq<TypesContact>)
    ensures |r| == |VisibleContacts(contacts, f)|
    ensures forall i :: 0 <= i < |r| ==> r[i].deleted != Some(true)
  {
    Converted(VisibleContacts(contacts, f))
  }

  /** `contacts.map(convertToTypeContact)` */
  function Converted(contacts: seq<Contact>): (r: seq<TypesContact>)
    ensures |r| == |contacts|
  {
    seq(|contacts|, i requires 0 <= i < |contacts| => ConvertToTypeContact(contacts[i]))
  }

  lemma ConvertedAppend(a: seq<Contact>, b: seq<Contact>)
    ensures Converted(a + b) == Converted(a) + Converted(b)
  {
    var l, r := Converted(a + b), Converted(a) + Converted(b);
    forall i | 0 <= i < |l| ensures l[i] == r[i] {
      if i < |a| {
        assert (a + b)[i] == a[i];
      } else {
        assert (a + b)[i] == b[i - |a|];
      }
    }
  }

  /** Filtering keeps the store order: the list of a concatenation is the
      concatenation of the lists. */
  lemma FilteredKeepsOrder(a: seq<Contact>, b: seq<Contact>, f: FilterState)
    ensures VisibleContacts(a + b, f) == VisibleContacts(a, f) + VisibleContacts(b, f)
    ensures FilteredContacts(a + b, f) == FilteredContacts(a, f) + FilteredContacts(b, f)
  {
    FilterAppend(a, b, c => Shown(c, f));
    ConvertedAppend(VisibleContacts(a, f), VisibleContacts(b, f));
  }

  /** Setting the `date` filter leaves the filtered list as it was. */
  lemma {:induction false} DateFilterKeepsList(contacts: seq<Contact>, f: FilterState, d: string)
    ensures VisibleContacts(contacts, f.(date := d)) == VisibleContacts(contacts, f)
    ensures FilteredContacts(contacts, f.(date := d)) == FilteredContacts(contacts, f)
    decreases |contacts|
  {
    if contacts != [] {
      DateFilterKeepsList(contacts[1..], f, d);
      DateFilterIgnored(contacts[0], f, d);
    }
  }

  /** With no filter set every contact that is not deleted is listed. */
  lemma EmptyFiltersShowAllLive(c: Contact)
    ensures Shown(c, EMPTY_FILTERS) <==> c.deleted != Some(true)
  {
    assert ToLower("") == "";
    assert OccursAt(ToLower(c.name), "", 0);
  }

  lemma LowerOfUpper(s: string)
    ensures ToLower(ToUpper(s)) == ToLower(s)
  {
    var l, u := ToLower(ToUpper(s)), ToLower(s);
    assert forall i :: 0 <= i < |s| ==> l[i] == u[i];
  }

  /** Name and role filters ignore the case the user typed. */
  lemma FilterIgnoresCase(c: Contact, f: FilterState)
    ensures Shown(c, f.(name := ToUpper(f.name), role := ToUpper(f.role))) == Shown(c, f)
  {
    LowerOfUpper(f.name);
    LowerOfUpper(f.role);
    assert f.role == "" <==> ToUpper(f.role) == "";
  }

  // ---------------------------------------------------------------------------
  // convertToTypeContact

  /** One store communication as a `communicationHistory` entry: the type is
      always a list, the date goes to `timestamp`, and neither `date` nor the
      `type` placeholder is set. */
  function HistoryEntry(comm: Communication): CommunicationEntry {
    CommunicationEntry(comm.id, TypeAdapters.TypeListOf(comm.kind), comm.notes, comm.date, None, false)
  }

  /** `convertToTypeContact`. The communications travel in
      `communicationHistory`; `communications` is always []. */
  function ConvertToTypeContact(c: Contact): (t: TypesContact)
    ensures t.communications == Some([])
    ensures t.communicationHistory.Some?
    ensures |t.communicationHistory.value| == |c.communications.GetOr([])|
    ensures forall i :: 0 <= i < |t.communicationHistory.value| ==>
      var comm, e := c.communications.value[i], t.communicationHistory.value[i];
      e.id == comm.id && e.notes == comm.notes && e.timestamp == comm.date
      && (comm.kind.OneType? ==> e.types == [comm.kind.t])
      && (comm.kind.TypeList? ==> e.types == comm.kind.ts)
    ensures c.lastContactedAt.Some? ==> t.lastContactedAt == Present(c.lastContactedAt.value)
    ensures c.lastContactedAt.None? ==> t.lastContactedAt == Null
    ensures t.id == c.id && t.deleted == c.deleted && t.synced == c.synced
  {
    var comms := c.communications.GetOr([]);
    TypesContact(
      communications := Some([]),
      lastContactedAt := match c.lastContactedAt case Some(d) => Present(d) case None => Null,
      id := c.id, name := c.name, role := c.role, status := c.status, category := c.category,
      description := c.description, picture := c.picture, birthday := c.birthday, age := c.age,
      address := TypesAddress(Some(c.address.street), Some(c.address.city), Some(c.address.state),
                              Some(c.address.zipCode), Some(c.address.country)),
      hasKids := c.hasKids, numberOfKids := c.numberOfKids, maritalStatus := c.maritalStatus,
      additionalDetails := c.additionalDetails,
      communicationHistory := Some(seq(|comms|, i requires 0 <= i < |comms| => HistoryEntry(comms[i]))),
      createdAt := c.createdAt, updatedAt := c.updatedAt,
      phoneNumber := c.phoneNumber, email := c.email, contactType := c.contactType,
      contactDate := c.contactDate, synced := c.synced, deleted := c.deleted)
  }

  /** The list cards and the reminders fall back on `communications`, which
      the conversion empties: what they show is the store's `lastContactedAt`
      and nothing else. */
  lemma ConvertedFallbackIsDead(c: Contact)
    ensures Recency.LastContactedDate(ConvertToTypeContact(c)) == c.lastContactedAt
  {
    var t := ConvertToTypeContact(c);
    assert Recency.EntryStamps(t.communications.GetOr([])) == [];
  }

  // ---------------------------------------------------------------------------
  // handleAddContact

  /** `ContactFormInput`; `contactDate` is `None` when the form left it "". */
  datatype ContactFormInput = ContactFormInput(
    id: Option<string>,
    name: string,
    role: string,
    status: string,
    category: string,
    description: string,
    picture: Option<string>,
    birthday: Option<string>,
    age: Option<AgeValue>,
    address: Option<TypesAddress>,
    hasKids: Option<bool>,
    numberOfKids: Option<int>,
    maritalStatus: Option<string>,
    additionalDetails: Option<string>,
    phoneNumber: Option<string>,
    email: Option<string>,
    contactType: Option<string>,
    contactDate: Option<Timestamp>)

  /** The contact `handleAddContact` builds from the form. */
  function NewContact(input: ContactFormInput, env: Env): (c: Contact)
    ensures Truthy(input.id) ==> c.id == input.id.value
    ensures !Truthy(input.id) ==> c.id == env.uuid
    ensures c.communications == Some([])
    ensures c.lastContactedAt == input.contactDate
    ensures c.createdAt == env.now && c.updatedAt == env.now
  {
    Contact(
      id := OrElse(input.id, env.uuid),
      name := input.name, role := input.role, status := input.status, category := input.category,
      description := input.description,
      picture := NonEmpty(input.picture),
      birthday := NonEmpty(input.birthday),
      age := if AgeTruthy(input.age) then input.age else None,
      address := TypeAdapters.TypesToContextAddress(input.address),
      hasKids := input.hasKids.GetOr(false),
      numberOfKids := Some(input.numberOfKids.GetOr(0)),
      maritalStatus := NonEmpty(input.maritalStatus),
      additionalDetails := Some(OrElse(input.additionalDetails, "")),
      communications := Some([]),
      lastContactedAt := input.contactDate,
      createdAt := env.now, updatedAt := env.now,
      phoneNumber := input.phoneNumber, email := input.email, contactType := input.contactType,
      contactDate := input.contactDate, synced := None, deleted := None)
  }

  /** Every address part the form left out is stored as "". */
  lemma NewContactAddress(input: ContactFormInput, env: Env)
    ensures var a := NewContact(input, env).address;
      (input.address.None? ==> a == Address("", "", "", "", ""))
      && (input.address.Some? ==>
            a.street == input.address.value.street.GetOr("") && a.city == input.address.value.city.GetOr("")
            && a.state == input.address.value.state.GetOr("") && a.zipCode == input.address.value.zipCode.GetOr("")
            && a.country == input.address.value.country.GetOr(""))
  {
  }

  /** `handleAddContact`: nothing is dispatched at the limit, otherwise one
      ADD_CONTACT with the new contact. */
  function HandleAddContact(contacts: seq<Contact>, input: ContactFormInput, env: Env): (a: Option<Action>)
    ensures a.None? <==> AtContactLimit(contacts)
    ensures a.Some? ==> a.value.AddContact? && a.value.contact.lastContactedAt == input.contactDate
  {
    if AtContactLimit(contacts) then None else Some(AddContact(NewContact(input, env)))
  }

  /** A contact added with a contact date is listed and reminded with that
      date. */
  lemma AddedContactShowsContactDate(input: ContactFormInput, env: Env)
    ensures Recency.LastContactedDate(ConvertToTypeContact(NewContact(input, env))) == input.contactDate
  {
    ConvertedFallbackIsDead(NewContact(input, env));
  }

  // ---------------------------------------------------------------------------
  // handleEditContact

  /** The store communications rebuilt from `communicationHistory`: a missing
      id is replaced by a freshly generated one (`uuids(i)` for entry `i`),
      and the type is always stored as a list. */
  function EditedCommunications(history: Option<seq<CommunicationEntry>>, uuids: nat -> string): (r: seq<Communication>)
    ensures history.None? ==> r == []
    ensures history.Some? ==> |r| == |history.value|
    ensures history.Some? ==> forall i :: 0 <= i < |r| ==>
      var e := history.value[i];
      r[i].kind == TypeList(e.types) && r[i].notes == e.notes && r[i].date == e.timestamp
      && (e.id != "" ==> r[i].id == e.id) && (e.id == "" ==> r[i].id == uuids(i))
  {
    match history
    case None => []
    case Some(es) =>
      seq(|es|, i requires 0 <= i < |es| =>
        Communication(if es[i].id != "" then es[i].id else uuids(i), TypeList(es[i].types), es[i].notes, es[i].timestamp))
  }

  /** The UPDATE_CONTACT payload of `handleEditContact`. */
  function EditedContact(updated: TypesContact, uuids: nat -> string, now: Timestamp): (c: Contact)
    ensures updated.contactDate.Some? ==> c.lastContactedAt == updated.contactDate
    ensures updated.contactDate.None? && updated.lastContactedAt.Present? ==>
      c.lastContactedAt == Some(updated.lastContactedAt.value)
    ensures updated.contactDate.None? && !updated.lastContactedAt.Present? ==> c.lastContactedAt.None?
    ensures c.id == updated.id && c.updatedAt == now && c.createdAt == updated.createdAt
  {
    Contact(
      id := updated.id, name := updated.name, role := updated.role, status := updated.status,
      category := updated.category, description := updated.description,
      picture := Some(OrElse(updated.picture, "")),
      birthday := Some(OrElse(updated.birthday, "")),
      age := if AgeTruthy(updated.age) then updated.age else Some(AgeNumber(0)),
      address := TypeAdapters.TypesToContextAddress(Some(updated.address)),
      hasKids := updated.hasKids,
      numberOfKids := Some(updated.numberOfKids.GetOr(0)),
      maritalStatus := Some(OrElse(updated.maritalStatus, "Single")),
      additionalDetails := Some(OrElse(updated.additionalDetails, "")),
      communications := Some(EditedCommunications(updated.communicationHistory, uuids)),
      lastContactedAt :=
        if updated.contactDate.Some? then updated.contactDate
        else if updated.lastContactedAt.Present? then Some(updated.lastContactedAt.value)
        else None,
      createdAt := updated.createdAt, updatedAt := now,
      phoneNumber := updated.phoneNumber, email := updated.email, contactType := updated.contactType,
      contactDate := updated.contactDate, synced := updated.synced, deleted := updated.deleted)
  }

  /** Editing a listed contact without touching its history gives back the
      store's communications when they were all stored as lists with ids, and
      keeps its last-contacted date unless a contact date overrides it. */
  lemma EditAfterConvert(c: Contact, uuids: nat -> string, now: Timestamp)
    requires c.communications.Some?
    requires forall i :: 0 <= i < |c.communications.value| ==>
      c.communications.value[i].kind.TypeList? && c.communications.value[i].id != ""
    ensures EditedContact(ConvertToTypeContact(c), uuids, now).communications == c.communications
    ensures EditedContact(ConvertToTypeContact(c), uuids, now).lastContactedAt ==
      if c.contactDate.Some? then c.contactDate else c.lastContactedAt
  {
    var t := ConvertToTypeContact(c);
    var back := EditedContact(t, uuids, now).communications.value;
    assert |back| == |c.communications.value|;
    forall i | 0 <= i < |back|
      ensures back[i] == c.communications.value[i]
    {
      var comm, e := c.communications.value[i], t.communicationHistory.value[i];
      assert e.types == comm.kind.ts && e.id == comm.id;
      assert back[i].kind == TypeList(e.types);
    }
    assert back == c.communications.value;
  }
}
