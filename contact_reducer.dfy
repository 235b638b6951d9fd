/** The local mirror of context/contact-context.tsx: the store-side `Contact`
    shape, the pending-change queue, the store state and `contactReducer`, the
    pure transition function every change of the store goes through. */
module ContactReducer {
  import opened Common
  import opened ContactTypes

  /** Store-side address: every part is a string, "" when not given. */
  datatype Address = Address(street: string, city: string, state: string, zipCode: string, country: string)

  /** `type: CommunicationType | CommunicationType[]` */
  datatype CommTypes = OneType(t: CommunicationType) | TypeList(ts: seq<CommunicationType>)

  datatype Communication = Communication(id: string, kind: CommTypes, notes: string, date: Timestamp)

  /** Store-side contact; `synced` and `deleted` are `_synced` and `_deleted`. */
  datatype Contact = Contact(
    id: string,
    name: string,
    role: string,
    status: string,
    category: string,
    description: string,
    picture: Option<string>,
    birthday: Option<string>,
    age: Option<AgeValue>,
    address: Address,
    hasKids: bool,
    numberOfKids: Option<int>,
    maritalStatus: Option<string>,
    additionalDetails: Option<string>,
    communications: Option<seq<Communication>>,
    lastContactedAt: Option<Timestamp>,
    createdAt: Timestamp,
    updatedAt: Timestamp,
    phoneNumber: Option<string>,
    email: Option<string>,
    contactType: Option<string>,
    contactDate: Option<Timestamp>,
    synced: Option<bool>,
    deleted: Option<bool>)

  datatype ChangeKind = Create | Update | Delete

  datatype PendingChange = PendingChange(kind: ChangeKind, id: string, data: Option<Contact>, timestamp: Timestamp)

  datatype ContactState = ContactState(
    contacts: seq<Contact>,
    selectedContact: Option<Contact>,
    loading: bool,
    error: Option<string>,
    authenticated: bool,
    offlineMode: bool,
    pendingChanges: seq<PendingChange>,
    syncing: bool)

  const INITIAL_STATE: ContactState :=
    ContactState([], None, false, None, false, false, [], false)

  datatype Action =
    | SetContacts(contacts: seq<Contact>)
    | AddContact(contact: Contact)
    | UpdateContact(contact: Contact)
    | DeleteContact(id: string)
    | SelectContact(selectId: Option<string>)
    | AddCommunication(contactId: string, types: seq<CommunicationType>, notes: string, date: Option<Timestamp>)
    | SetLoading(loading: bool)
    | SetError(error: Option<string>)
    | LoadData(saved: ContactState)
    | SetAuthenticated(authenticated: bool)
    | SetOfflineMode(offline: bool)
    | AddPendingChange(change: PendingChange)
    | RemovePendingChange(changeId: string)
    | ClearPendingChanges
    | SetSyncing(syncing: bool)

  /** The values `uuidv4()` and `new Date()` produce while one action is reduced. */
  datatype Env = Env(uuid: string, now: Timestamp)

  /** The contact with its `_synced` flag forced to `synced`. */
  function WithSynced(c: Contact, synced: bool): Contact {
    c.(synced := Some(synced))
  }

  /** `contacts.map(c => c.id === payload.id ? {...payload, _synced} : c)` */
  function ReplaceById(contacts: seq<Contact>, payload: Contact, synced: bool): (r: seq<Contact>)
  {
    seq(|contacts|, i requires 0 <= i < |contacts| =>
      if contacts[i].id == payload.id then WithSynced(payload, synced) else contacts[i])
  }

  /** `contacts.map(c => c.id === id ? {...c, _deleted: true, _synced: false} : c)` */
  function Tombstone(contacts: seq<Contact>, id: string): (r: seq<Contact>)
  {
    seq(|contacts|, i requires 0 <= i < |contacts| =>
      if contacts[i].id == id then contacts[i].(deleted := Some(true), synced := Some(false)) else contacts[i])
  }

  /** `contacts.filter(c => c.id !== id)` */
  function RemoveById(contacts: seq<Contact>, id: string): (r: seq<Contact>)
  {
    if contacts == [] then []
    else if contacts[0].id == id then RemoveById(contacts[1..], id)
    else [contacts[0]] + RemoveById(contacts[1..], id)
  }

  /** `contacts.find(c => c.id === id)` */
  function FindContact(contacts: seq<Contact>, id: string): (r: Option<Contact>)
    ensures r.None? <==> forall i :: 0 <= i < |contacts| ==> contacts[i].id != id
    ensures r.Some? ==> exists i :: 0 <= i < |contacts| && contacts[i] == r.value && r.value.id == id &&
                                    forall j :: 0 <= j < i ==> contacts[j].id != id
  {
    if contacts == [] then None
    else if contacts[0].id == id then Some(contacts[0])
    else
      var r := FindContact(contacts[1..], id);
      if r.Some? then
        var i :| 0 <= i < |contacts[1..]| && contacts[1..][i] == r.value && r.value.id == id &&
                 forall j :: 0 <= j < i ==> contacts[1..][j].id != id;
        assert contacts[i + 1] == r.value;
        r
      else r
  }

  /** The communication that `ADD_COMMUNICATION` creates. */
  function NewCommunication(a: Action, env: Env): Communication
    requires a.AddCommunication?
  {
    Communication(env.uuid, TypeList(a.types), a.notes, a.date.GetOr(env.now))
  }

  /** The contact after a communication was logged on it. */
  function WithCommunication(c: Contact, comm: Communication, synced: bool): Contact {
    c.(communications := Some([comm] + c.communications.GetOr([])),
       lastContactedAt := Some(comm.date),
       synced := Some(synced))
  }

  function LogCommunication(contacts: seq<Contact>, contactId: string, comm: Communication, synced: bool): (r: seq<Contact>)
  {
    seq(|contacts|, i requires 0 <= i < |contacts| =>
      if contacts[i].id == contactId then WithCommunication(contacts[i], comm, synced) else contacts[i])
  }

  /** The contact at `i` after logging: changed exactly when it is the target. */
  lemma LogCommunicationAt(contacts: seq<Contact>, contactId: string, comm: Communication, synced: bool, i: nat)
    requires i < |contacts|
    ensures var r := LogCommunication(contacts, contactId, comm, synced);
      |r| == |contacts|
      && r[i] == if contacts[i].id == contactId then WithCommunication(contacts[i], comm, synced) else contacts[i]
  {
  }

  /** `pendingChanges.findIndex(ch => ch.id === id && ch.type === kind)`, -1 when there is none. */
  function FindChangeIndex(queue: seq<PendingChange>, id: string, kind: ChangeKind): (r: int)
    ensures -1 <= r < |queue|
    ensures r == -1 <==> forall i :: 0 <= i < |queue| ==> !(queue[i].id == id && queue[i].kind == kind)
    ensures r >= 0 ==> queue[r].id == id && queue[r].kind == kind &&
                       forall j :: 0 <= j < r ==> !(queue[j].id == id && queue[j].kind == kind)
  {
    if queue == [] then -1
    else if queue[0].id == id && queue[0].kind == kind then 0
    else
      var r := FindChangeIndex(queue[1..], id, kind);
      if r == -1 then -1 else r + 1
  }

  /** The `ADD_PENDING_CHANGE` case: replace the change with the same id and
      type in place, or append. */
  function Coalesce(queue: seq<PendingChange>, change: PendingChange): seq<PendingChange> {
    var k := FindChangeIndex(queue, change.id, change.kind);
    if k >= 0 then queue[k := change] else queue + [change]
  }

  /** `pendingChanges.filter(ch => ch.id !== id)` */
  function RemoveChanges(queue: seq<PendingChange>, id: string): seq<PendingChange>
  {
    if queue == [] then []
    else if queue[0].id == id then RemoveChanges(queue[1..], id)
    else [queue[0]] + RemoveChanges(queue[1..], id)
  }

  /** `contactReducer` */
  function Reduce(s: ContactState, a: Action, env: Env): ContactState {
    match a
    case SetContacts(cs) => s.(contacts := cs)
    case AddContact(c) => s.(contacts := s.contacts + [WithSynced(c, !s.offlineMode)])
    case UpdateContact(c) =>
      s.(contacts := ReplaceById(s.contacts, c, !s.offlineMode),
         selectedContact :=
           if s.selectedContact.Some? && s.selectedContact.value.id == c.id
           then Some(WithSynced(c, !s.offlineMode)) else s.selectedContact)
    case DeleteContact(id) =>
      var selected := if s.selectedContact.Some? && s.selectedContact.value.id == id then None else s.selectedContact;
      if s.offlineMode then s.(contacts := Tombstone(s.contacts, id), selectedContact := selected)
      else s.(contacts := RemoveById(s.contacts, id), selectedContact := selected)
    case SelectContact(id) =>
      s.(selectedContact := if Truthy(id) then FindContact(s.contacts, id.value) else None)
    case AddCommunication(contactId, _, _, _) =>
      var comm := NewCommunication(a, env);
      s.(contacts := LogCommunication(s.contacts, contactId, comm, !s.offlineMode),
         selectedContact :=
           if s.selectedContact.Some? && s.selectedContact.value.id == contactId
           then Some(WithCommunication(s.selectedContact.value, comm, !s.offlineMode)) else s.selectedContact)
    case SetLoading(b) => s.(loading := b)
    case SetError(e) => s.(error := e)
    case LoadData(saved) => saved
    case SetAuthenticated(b) => s.(authenticated := b)
    case SetOfflineMode(b) => s.(offlineMode := b)
    case AddPendingChange(ch) => s.(pendingChanges := Coalesce(s.pendingChanges, ch))
    case RemovePendingChange(id) => s.(pendingChanges := RemoveChanges(s.pendingChanges, id))
    case ClearPendingChanges => s.(pendingChanges := [])
    case SetSyncing(b) => s.(syncing := b)
  }

  // ---------------------------------------------------------------------------
  // Properties of the transitions

  /** Only the contact actions touch the contacts, only the queue actions
      touch the queue, and only SET_OFFLINE_MODE changes the mode (LOAD_DATA
      replaces the whole state). */
  lemma ReduceFrame(s: ContactState, a: Action, env: Env)
    ensures var r := Reduce(s, a, env);
      var touchesContacts := a.SetContacts? || a.AddContact? || a.UpdateContact? || a.DeleteContact?
                             || a.AddCommunication? || a.LoadData?;
      var touchesQueue := a.AddPendingChange? || a.RemovePendingChange? || a.ClearPendingChanges? || a.LoadData?;
      && (!touchesContacts ==> r.contacts == s.contacts)
      && (!touchesQueue ==> r.pendingChanges == s.pendingChanges)
      && (!(a.SetOfflineMode? || a.LoadData?) ==> r.offlineMode == s.offlineMode)
  {
  }

  /** No two contacts share an id. */
  ghost predicate UniqueIds(contacts: seq<Contact>) {
    forall i, j :: 0 <= i < j < |contacts| ==> contacts[i].id != contacts[j].id
  }

  /** No two queued changes share the pair (id, type). */
  ghost predicate CoalescedQueue(queue: seq<PendingChange>) {
    forall i, j :: 0 <= i < j < |queue| ==> !(queue[i].id == queue[j].id && queue[i].kind == queue[j].kind)
  }

  ghost predicate HasId(contacts: seq<Contact>, id: string) {
    exists i :: 0 <= i < |contacts| && contacts[i].id == id
  }

  /** ADD_CONTACT appends the payload, flagged `_synced = !offlineMode`, and
      changes nothing else. */
  lemma AddContactAppends(s: ContactState, c: Contact, env: Env)
    ensures var r := Reduce(s, AddContact(c), env);
      && |r.contacts| == |s.contacts| + 1
      && r.contacts[|s.contacts|] == c.(synced := Some(!s.offlineMode))
      && r.contacts[..|s.contacts|] == s.contacts
      && r == s.(contacts := r.contacts)
  {
  }

  /** ADD_CONTACT keeps the ids unique exactly when the new id is not yet taken. */
  lemma AddContactUniqueIds(s: ContactState, c: Contact, env: Env)
    requires UniqueIds(s.contacts)
    ensures UniqueIds(Reduce(s, AddContact(c), env).contacts) <==> !HasId(s.contacts, c.id)
  {
    var r := Reduce(s, AddContact(c), env).contacts;
    if HasId(s.contacts, c.id) {
      var i :| 0 <= i < |s.contacts| && s.contacts[i].id == c.id;
      assert r[i].id == r[|s.contacts|].id;
    }
  }

  /** UPDATE_CONTACT keeps length and order, replaces exactly the contacts
      whose id matches (forcing `_synced = !offlineMode` whatever the payload
      says), and touches `selectedContact` only when its id matches. */
  lemma UpdateContactReplaces(s: ContactState, c: Contact, env: Env)
    ensures var r := Reduce(s, UpdateContact(c), env);
      && |r.contacts| == |s.contacts|
      && (forall i :: 0 <= i < |s.contacts| && s.contacts[i].id == c.id ==>
            r.contacts[i] == c.(synced := Some(!s.offlineMode)))
      && (forall i :: 0 <= i < |s.contacts| && s.contacts[i].id != c.id ==> r.contacts[i] == s.contacts[i])
      && (!HasId(s.contacts, c.id) ==> r.contacts == s.contacts)
      && (r.selectedContact != s.selectedContact ==> s.selectedContact.Some? && s.selectedContact.value.id == c.id)
      && r == s.(contacts := r.contacts, selectedContact := r.selectedContact)
  {
    var r := Reduce(s, UpdateContact(c), env);
    if !HasId(s.contacts, c.id) {
      assert forall i :: 0 <= i < |s.contacts| ==> r.contacts[i] == s.contacts[i];
    }
  }

  /** UPDATE_CONTACT preserves unique ids. */
  lemma UpdateContactUniqueIds(s: ContactState, c: Contact, env: Env)
    requires UniqueIds(s.contacts)
    ensures UniqueIds(Reduce(s, UpdateContact(c), env).contacts)
  {
  }

  lemma {:induction false} RemoveByIdMembers(contacts: seq<Contact>, id: string)
    ensures forall c :: c in RemoveById(contacts, id) <==> c in contacts && c.id != id
  {
    if contacts != [] {
      RemoveByIdMembers(contacts[1..], id);
      assert contacts == [contacts[0]] + contacts[1..];
    }
  }

  lemma {:induction false} RemoveByIdConcat(a: seq<Contact>, b: seq<Contact>, id: string)
    ensures RemoveById(a + b, id) == RemoveById(a, id) + RemoveById(b, id)
  {
    if a != [] {
      assert (a + b)[1..] == a[1..] + b;
      RemoveByIdConcat(a[1..], b, id);
    } else {
      assert a + b == b;
    }
  }

  lemma {:induction false} RemoveByIdUnique(contacts: seq<Contact>, id: string)
    requires UniqueIds(contacts)
    ensures UniqueIds(RemoveById(contacts, id))
  {
    if contacts != [] {
      RemoveByIdUnique(contacts[1..], id);
      RemoveByIdMembers(contacts[1..], id);
      var rest := RemoveById(contacts[1..], id);
      if contacts[0].id != id {
        forall j | 0 <= j < |rest| ensures rest[j].id != contacts[0].id {
          assert rest[j] in contacts[1..];
        }
      }
    }
  }

  /** DELETE_CONTACT while offline keeps every record and tombstones the target. */
  lemma DeleteOfflineTombstones(s: ContactState, id: string, env: Env)
    requires s.offlineMode
    ensures var r := Reduce(s, DeleteContact(id), env);
      && |r.contacts| == |s.contacts|
      && (forall i :: 0 <= i < |s.contacts| && s.contacts[i].id == id ==>
            r.contacts[i] == s.contacts[i].(deleted := Some(true), synced := Some(false)))
      && (forall i :: 0 <= i < |s.contacts| && s.contacts[i].id != id ==> r.contacts[i] == s.contacts[i])
      && (s.selectedContact.Some? && s.selectedContact.value.id == id ==> r.selectedContact.None?)
      && (!(s.selectedContact.Some? && s.selectedContact.value.id == id) ==> r.selectedContact == s.selectedContact)
  {
  }

  /** DELETE_CONTACT while online removes every record with that id and keeps
      the others in order. */
  lemma DeleteOnlineRemoves(s: ContactState, id: string, env: Env)
    requires !s.offlineMode
    ensures var r := Reduce(s, DeleteContact(id), env);
      && (forall c :: c in r.contacts <==> c in s.contacts && c.id != id)
      && (forall a, b :: s.contacts == a + b ==> r.contacts == RemoveById(a, id) + RemoveById(b, id))
      && (!HasId(s.contacts, id) ==> r.contacts == s.contacts)
      && (s.selectedContact.Some? && s.selectedContact.value.id == id ==> r.selectedContact.None?)
      && (UniqueIds(s.contacts) ==> UniqueIds(r.contacts))
  {
    RemoveByIdMembers(s.contacts, id);
    forall a, b | s.contacts == a + b ensures RemoveById(s.contacts, id) == RemoveById(a, id) + RemoveById(b, id) {
      RemoveByIdConcat(a, b, id);
    }
    if !HasId(s.contacts, id) {
      RemoveByIdNoMatch(s.contacts, id);
    }
    if UniqueIds(s.contacts) {
      RemoveByIdUnique(s.contacts, id);
    }
  }

  lemma {:induction false} RemoveByIdNoMatch(contacts: seq<Contact>, id: string)
    requires !HasId(contacts, id)
    ensures RemoveById(contacts, id) == contacts
  {
    if contacts != [] {
      assert contacts[0].id != id;
      assert forall i :: 0 <= i < |contacts[1..]| ==> contacts[1..][i] == contacts[i + 1];
      RemoveByIdNoMatch(contacts[1..], id);
    }
  }

  /** SELECT_CONTACT selects the first contact with that id, or nothing. */
  lemma SelectContactFinds(s: ContactState, id: string, env: Env)
    requires id != ""
    ensures var r := Reduce(s, SelectContact(Some(id)), env);
      && (r.selectedContact.Some? <==> HasId(s.contacts, id))
      && (r.selectedContact.Some? ==> r.selectedContact.value in s.contacts && r.selectedContact.value.id == id)
      && r.contacts == s.contacts
  {
  }

  /** ADD_COMMUNICATION puts exactly one new entry in front of the target's
      communications, sets `lastContactedAt` to the supplied date (or "now"),
      flags the contact `_synced = !offlineMode`, and leaves every other
      contact untouched. */
  lemma AddCommunicationPrepends(s: ContactState, contactId: string, types: seq<CommunicationType>,
                                 notes: string, date: Option<Timestamp>, env: Env)
    ensures var r := Reduce(s, AddCommunication(contactId, types, notes, date), env);
      var comm := Communication(env.uuid, TypeList(types), notes, date.GetOr(env.now));
      && |r.contacts| == |s.contacts|
      && (forall i :: 0 <= i < |s.contacts| && s.contacts[i].id == contactId ==>
            && r.contacts[i].communications.Some?
            && r.contacts[i].communications.value == [comm] + s.contacts[i].communications.GetOr([])
            && r.contacts[i].communications.value[0] == comm
            && |r.contacts[i].communications.value| == |s.contacts[i].communications.GetOr([])| + 1
            && r.contacts[i].lastContactedAt == Some(date.GetOr(env.now))
            && r.contacts[i].synced == Some(!s.offlineMode)
            && r.contacts[i].(communications := s.contacts[i].communications,
                              lastContactedAt := s.contacts[i].lastContactedAt,
                              synced := s.contacts[i].synced) == s.contacts[i])
      && (forall i :: 0 <= i < |s.contacts| && s.contacts[i].id != contactId ==> r.contacts[i] == s.contacts[i])
  {
  }

  /** ADD_PENDING_CHANGE replaces a queued change with the same (id, type) at
      its index, and appends otherwise. */
  lemma AddPendingChangeCoalesces(s: ContactState, ch: PendingChange, env: Env)
    ensures var q := Reduce(s, AddPendingChange(ch), env).pendingChanges;
      && ((exists i :: 0 <= i < |s.pendingChanges| && s.pendingChanges[i].id == ch.id && s.pendingChanges[i].kind == ch.kind) ==>
            var k := FindChangeIndex(s.pendingChanges, ch.id, ch.kind);
            0 <= k < |s.pendingChanges| && q == s.pendingChanges[k := ch])
      && ((forall i :: 0 <= i < |s.pendingChanges| ==> !(s.pendingChanges[i].id == ch.id && s.pendingChanges[i].kind == ch.kind)) ==>
            q == s.pendingChanges + [ch])
      && ch in q
  {
    CoalesceIncludes(s.pendingChanges, ch);
  }

  lemma CoalesceIncludes(queue: seq<PendingChange>, ch: PendingChange)
    ensures ch in Coalesce(queue, ch)
  {
    var k := FindChangeIndex(queue, ch.id, ch.kind);
    if k >= 0 {
      assert Coalesce(queue, ch)[k] == ch;
    } else {
      assert Coalesce(queue, ch)[|queue|] == ch;
    }
  }

  /** The queue never holds two changes with the same id and type. */
  lemma AddPendingChangeKeepsQueueCoalesced(s: ContactState, ch: PendingChange, env: Env)
    requires CoalescedQueue(s.pendingChanges)
    ensures CoalescedQueue(Reduce(s, AddPendingChange(ch), env).pendingChanges)
  {
    var k := FindChangeIndex(s.pendingChanges, ch.id, ch.kind);
    var q := Reduce(s, AddPendingChange(ch), env).pendingChanges;
    if k >= 0 {
      assert forall i :: 0 <= i < |q| ==> q[i].id == s.pendingChanges[i].id && q[i].kind == s.pendingChanges[i].kind;
    } else {
      assert forall i :: 0 <= i < |s.pendingChanges| ==> q[i] == s.pendingChanges[i];
    }
  }

  lemma {:induction false} RemoveChangesMembers(queue: seq<PendingChange>, id: string)
    ensures forall ch :: ch in RemoveChanges(queue, id) <==> ch in queue && ch.id != id
  {
    if queue != [] {
      RemoveChangesMembers(queue[1..], id);
      assert queue == [queue[0]] + queue[1..];
    }
  }

  /** REMOVE_PENDING_CHANGE drops every change with that id, whatever its
      type; CLEAR_PENDING_CHANGES empties the queue. */
  lemma RemoveAndClearPendingChanges(s: ContactState, id: string, env: Env)
    ensures forall ch :: ch in Reduce(s, RemovePendingChange(id), env).pendingChanges <==>
                         ch in s.pendingChanges && ch.id != id
    ensures Reduce(s, ClearPendingChanges, env).pendingChanges == []
    ensures Reduce(s, RemovePendingChange(id), env).contacts == s.contacts
  {
    RemoveChangesMembers(s.pendingChanges, id);
  }
}
