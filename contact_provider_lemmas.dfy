/** What `enhancedDispatch` and `syncWithServer` guarantee, proved about their
    specification functions `Dispatched` and `Synced`, which the provider's
    methods are proved to implement. */
module ContactProviderLemmas {
  import opened Common
  import opened ContactTypes
  import opened ContactReducer
  import opened ContactProvider

  // ---------------------------------------------------------------------------
  // Connectivity classification

  /** `fetchContact` wraps every failure as "Failed to fetch contact: ...", so
      each of its failures reads as lost connectivity. */
  lemma FetchOneFailureLooksLikeConnectivity(remote: Remote, k: nat, id: string)
    requires remote.reply(k, FetchOneReq(id)).Err?
    ensures ApiCall(remote, k, FetchOneReq(id)).outcome.Err?
    ensures IsConnectivityError(ApiCall(remote, k, FetchOneReq(id)).outcome.message)
  {
    var m := remote.reply(k, FetchOneReq(id)).message;
    assert "Failed to fetch contact: " + m == "Failed to fetch" + (" contact: " + m);
    ContainsPrefix("Failed to fetch contact: " + m, "Failed to fetch", " contact: " + m);
  }

  /** A wrapped failure of any other helper is a connectivity failure exactly
      when the raw message is one, or when it was raised by `fetch` itself. */
  lemma WrappedConnectivity(remote: Remote, k: nat, req: Request)
    requires Guard(req).None? && remote.reply(k, req).Err?
    requires IsConnectivityError(remote.reply(k, req).message)
    ensures IsConnectivityError(ApiCall(remote, k, req).outcome.message)
  {
    ContainsAppendLeft(ErrorPrefix(req), remote.reply(k, req).message, "Failed to fetch");
  }

  // ---------------------------------------------------------------------------
  // enhancedDispatch

  /** The loading flag ends false for every framed action, and also for every
      action dispatched offline (the offline branch clears it unconditionally). */
  lemma DispatchLoading(s: ContactState, a: Action, remote: Remote, k: nat, env: Env)
    ensures Dispatched(s, a, remote, k, env).state.loading ==
            (if TogglesLoading(a) || s.offlineMode then false else s.loading)
  {
  }

  /** The change queued for an action seen offline (or online after a lost connection). */
  function QueuedFor(a: Action, env: Env): PendingChange
    requires a.AddContact? || a.UpdateContact? || a.DeleteContact?
  {
    match a
    case AddContact(c) => PendingChange(Create, c.id, Some(c), env.now)
    case UpdateContact(c) => PendingChange(Update, c.id, Some(c), env.now)
    case DeleteContact(id) => PendingChange(Delete, id, None, env.now)
  }

  /** The request an online ADD/UPDATE/DELETE sends. */
  function RequestFor(a: Action): Request
    requires a.AddContact? || a.UpdateContact? || a.DeleteContact?
  {
    match a
    case AddContact(c) => CreateReq(c)
    case UpdateContact(c) => UpdateReq(c.id, c)
    case DeleteContact(id) => DeleteReq(id)
  }

  /** Offline, nothing is sent; ADD, UPDATE and DELETE queue their change and
      apply the local transition (DELETE tombstones). */
  lemma OfflineQueuesChange(s: ContactState, a: Action, remote: Remote, k: nat, env: Env)
    requires s.offlineMode
    requires a.AddContact? || a.UpdateContact? || a.DeleteContact?
    ensures var e := Dispatched(s, a, remote, k, env);
      && e.requests == []
      && QueuedFor(a, env) in e.state.pendingChanges
      && e.state.offlineMode
      && e.state.error == s.error
      && (a.AddContact? ==> e.state.contacts == s.contacts + [WithSynced(a.contact, false)])
      && (a.UpdateContact? ==> e.state.contacts == ReplaceById(s.contacts, a.contact, false))
      && (a.DeleteContact? ==> e.state.contacts == Tombstone(s.contacts, a.id))
  {
    var s0 := if TogglesLoading(a) then Reduce(s, SetLoading(true), env) else s;
    AddPendingChangeCoalesces(s0, QueuedFor(a, env), env);
  }

  /** `Failed` in one formula. */
  lemma FailedFacts(live: ContactState, message: string, change: Option<PendingChange>, env: Env)
    ensures var conn := IsConnectivityError(message);
      var r := Failed(live, message, change, env);
      && r == live.(offlineMode := conn || live.offlineMode,
                    error := Some(if conn then NETWORK_LOST else message),
                    pendingChanges := if conn && change.Some? then Coalesce(live.pendingChanges, change.value)
                                      else live.pendingChanges)
      && (conn && change.Some? ==> change.value in r.pendingChanges)
  {
    if IsConnectivityError(message) && change.Some? {
      CoalesceIncludes(live.pendingChanges, change.value);
    }
  }

  /** The two flags `Failed` sets. */
  lemma FailedFlags(live: ContactState, message: string, change: Option<PendingChange>, env: Env)
    ensures var r := Failed(live, message, change, env);
      && r.offlineMode == (IsConnectivityError(message) || live.offlineMode)
      && r.error == Some(if IsConnectivityError(message) then NETWORK_LOST else message)
  {
    FailedFacts(live, message, change, env);
  }

  /** The local transition of ADD, UPDATE and DELETE leaves the flags and the queue alone. */
  lemma LocalStepKeepsFlags(s: ContactState, a: Action, env: Env)
    requires a.AddContact? || a.UpdateContact? || a.DeleteContact?
    ensures var s1 := Reduce(Reduce(s, SetLoading(true), env), a, env);
      s1.offlineMode == s.offlineMode && s1.error == s.error && s1.pendingChanges == s.pendingChanges
  {
  }

  /** A handled failure, once loading is cleared: lost connectivity goes
      offline, says so and queues the change; any other failure is reported. */
  lemma FailedReport(live: ContactState, message: string, change: Option<PendingChange>, env: Env)
    ensures var r := Reduce(Failed(live, message, change, env), SetLoading(false), env);
      && r.contacts == live.contacts
      && (IsConnectivityError(message) ==>
            r.offlineMode && r.error == Some(NETWORK_LOST) && (change.Some? ==> change.value in r.pendingChanges))
      && (!IsConnectivityError(message) ==>
            r.offlineMode == live.offlineMode && r.error == Some(message) && r.pendingChanges == live.pendingChanges)
  {
    FailedFacts(live, message, change, env);
  }

  /** A settled save, once loading is cleared: failures as `FailedReport`;
      success touches neither the flags nor the queue. */
  lemma SettledReport(live: ContactState, outcome: Outcome<Contact>, change: PendingChange, env: Env)
    ensures var r := Reduce(Settled(live, outcome, Some(change), env), SetLoading(false), env);
      && (outcome.Err? && IsConnectivityError(outcome.message) ==>
            r.offlineMode && r.error == Some(NETWORK_LOST) && change in r.pendingChanges)
      && (outcome.Err? && !IsConnectivityError(outcome.message) ==>
            r.offlineMode == live.offlineMode && r.error == Some(outcome.message) && r.pendingChanges == live.pendingChanges)
      && (outcome.Ok? ==>
            r.offlineMode == live.offlineMode && r.error == live.error && r.pendingChanges == live.pendingChanges)
  {
    if outcome.Err? {
      FailedReport(live, outcome.message, Some(change), env);
    }
  }

  /** Online ADD and UPDATE (with an id): the local step, one request, then `Settled`. */
  lemma OnlineSaveShape(s: ContactState, a: Action, remote: Remote, k: nat, env: Env)
    requires !s.offlineMode
    requires a.AddContact? || (a.UpdateContact? && a.contact.id != "")
    ensures var s1 := Reduce(Reduce(s, SetLoading(true), env), a, env);
      var call := ApiCall(remote, k, RequestFor(a));
      Dispatched(s, a, remote, k, env) ==
        Effect(Reduce(Settled(s1, call.outcome, Some(QueuedFor(a, env)), env), SetLoading(false), env), call.sent)
  {
    OnlineDispatched(s, a, remote, k, env);
  }

  /** Online DELETE: the record is removed first, then one request; only a failure is handled. */
  lemma OnlineDeleteShape(s: ContactState, id: string, remote: Remote, k: nat, env: Env)
    requires !s.offlineMode
    ensures var s1 := Reduce(Reduce(s, SetLoading(true), env), DeleteContact(id), env);
      var call := ApiCall(remote, k, DeleteReq(id));
      var change := PendingChange(Delete, id, None, env.now);
      Dispatched(s, DeleteContact(id), remote, k, env) ==
        Effect(Reduce(if call.outcome.Ok? then s1 else Failed(s1, call.outcome.message, Some(change), env),
                      SetLoading(false), env), call.sent)
  {
    OnlineDispatched(s, DeleteContact(id), remote, k, env);
  }

  /** Online ADD, UPDATE (with an id) and DELETE: one request; a connectivity
      failure switches to offline mode, reports it and queues the change; any
      other failure only sets `error`; success touches neither. */
  lemma OnlineFailureClassification(s: ContactState, a: Action, remote: Remote, k: nat, env: Env)
    requires !s.offlineMode
    requires a.AddContact? || (a.UpdateContact? && a.contact.id != "") || a.DeleteContact?
    ensures var call := ApiCall(remote, k, RequestFor(a));
      var e := Dispatched(s, a, remote, k, env);
      && e.requests == call.sent
      && (call.outcome.Err? && IsConnectivityError(call.outcome.message) ==>
            e.state.offlineMode && e.state.error == Some(NETWORK_LOST) && QueuedFor(a, env) in e.state.pendingChanges)
      && (call.outcome.Err? && !IsConnectivityError(call.outcome.message) ==>
            !e.state.offlineMode && e.state.error == Some(call.outcome.message) && e.state.pendingChanges == s.pendingChanges)
      && (call.outcome.Ok? ==>
            !e.state.offlineMode && e.state.error == s.error && e.state.pendingChanges == s.pendingChanges)
  {
    var call := ApiCall(remote, k, RequestFor(a));
    var s1 := Reduce(Reduce(s, SetLoading(true), env), a, env);
    LocalStepKeepsFlags(s, a, env);
    if a.DeleteContact? {
      OnlineDeleteShape(s, a.id, remote, k, env);
      if call.outcome.Err? {
        FailedReport(s1, call.outcome.message, Some(QueuedFor(a, env)), env);
      }
    } else {
      OnlineSaveShape(s, a, remote, k, env);
      SettledReport(s1, call.outcome, QueuedFor(a, env), env);
    }
  }

  /** UPDATE_CONTACT without an id is refused before anything is sent or changed. */
  lemma UpdateWithoutIdRefused(s: ContactState, c: Contact, remote: Remote, k: nat, env: Env)
    requires !s.offlineMode && c.id == ""
    ensures Dispatched(s, UpdateContact(c), remote, k, env) ==
            Effect(s.(error := Some(MISSING_ID), loading := false), [])
  {
  }

  /** A create that fails for lost connectivity leaves the local copy flagged
      `_synced = true` next to its queued create, so a later sync, which only
      selects `_synced === false` contacts, never sends it. */
  lemma LostCreateStaysFlaggedSynced(s: ContactState, c: Contact, remote: Remote, k: nat, env: Env)
    requires !s.offlineMode
    requires ApiCall(remote, k, CreateReq(c)).outcome.Err?
    requires IsConnectivityError(ApiCall(remote, k, CreateReq(c)).outcome.message)
    ensures var e := Dispatched(s, AddContact(c), remote, k, env);
      && |e.state.contacts| == |s.contacts| + 1
      && e.state.contacts[|s.contacts|] == WithSynced(c, true)
      && e.state.contacts[|s.contacts|] !in Unsynced(e.state.contacts)
      && PendingChange(Create, c.id, Some(c), env.now) in e.state.pendingChanges
  {
    OnlineFailureClassification(s, AddContact(c), remote, k, env);
    var e := Dispatched(s, AddContact(c), remote, k, env);
    UnsyncedMembers(e.state.contacts);
  }

  /** An online delete that fails for lost connectivity has already removed the
      record, so no tombstone is left for a later sync: the queued delete is
      never replayed. */
  lemma LostDeleteLeavesNoTombstone(s: ContactState, id: string, remote: Remote, k: nat, env: Env)
    requires !s.offlineMode
    requires ApiCall(remote, k, DeleteReq(id)).outcome.Err?
    requires IsConnectivityError(ApiCall(remote, k, DeleteReq(id)).outcome.message)
    ensures var e := Dispatched(s, DeleteContact(id), remote, k, env);
      && PendingChange(Delete, id, None, env.now) in e.state.pendingChanges
      && (forall c :: c in e.state.contacts ==> c.id != id)
      && (forall c :: c in Unsynced(e.state.contacts) ==> c.id != id)
  {
    OnlineFailureClassification(s, DeleteContact(id), remote, k, env);
    OnlineDeleteShape(s, id, remote, k, env);
    var s0 := Reduce(s, SetLoading(true), env);
    var s1 := Reduce(s0, DeleteContact(id), env);
    FailedReport(s1, ApiCall(remote, k, DeleteReq(id)).outcome.message, Some(PendingChange(Delete, id, None, env.now)), env);
    RemoveByIdMembers(s0.contacts, id);
    UnsyncedMembers(s1.contacts);
  }

  /** The first contact with an id is the one `find` returns. */
  lemma FindContactAt(contacts: seq<Contact>, id: string, i: nat)
    requires i < |contacts| && contacts[i].id == id
    requires forall j :: 0 <= j < i ==> contacts[j].id != id
    ensures FindContact(contacts, id) == Some(contacts[i])
  {
    var found := FindContact(contacts, id);
    var j :| 0 <= j < |contacts| && contacts[j] == found.value && found.value.id == id &&
             forall l :: 0 <= l < j ==> contacts[l].id != id;
    assert j == i;
  }

  /** Offline ADD_COMMUNICATION: the entry is logged, then the contact as it
      was found in the starting state is queued. */
  lemma OfflineCommunicationShape(s: ContactState, contactId: string, types: seq<CommunicationType>,
                                  notes: string, date: Option<Timestamp>, remote: Remote, k: nat, env: Env, i: nat)
    requires s.offlineMode
    requires i < |s.contacts| && s.contacts[i].id == contactId
    requires forall j :: 0 <= j < i ==> s.contacts[j].id != contactId
    ensures var a := AddCommunication(contactId, types, notes, date);
      var s1 := Reduce(Reduce(s, SetLoading(true), env), a, env);
      var ch := PendingChange(Update, contactId, Some(s.contacts[i]), env.now);
      Dispatched(s, a, remote, k, env).state == Reduce(s1, AddPendingChange(ch), env).(loading := false)
  {
    FindContactAt(s.contacts, contactId, i);
    OfflineDispatched(s, AddCommunication(contactId, types, notes, date), remote, k, env);
  }

  /** The queue and the contacts of that state. */
  lemma QueuedAfterLogging(st: ContactState, s1: ContactState, ch: PendingChange, env: Env)
    requires st == Reduce(s1, AddPendingChange(ch), env).(loading := false)
    ensures st.pendingChanges == Coalesce(s1.pendingChanges, ch) && st.contacts == s1.contacts
  {
  }

  /** Offline ADD_COMMUNICATION queues the contact as it was BEFORE the new
      entry was logged; the live copy has one entry more than the queued one. */
  lemma OfflineCommunicationQueuesStaleCopy(s: ContactState, contactId: string, types: seq<CommunicationType>,
                                            notes: string, date: Option<Timestamp>, remote: Remote, k: nat, env: Env, i: nat)
    requires s.offlineMode
    requires i < |s.contacts| && s.contacts[i].id == contactId
    requires forall j :: 0 <= j < i ==> s.contacts[j].id != contactId
    ensures var e := Dispatched(s, AddCommunication(contactId, types, notes, date), remote, k, env);
      && PendingChange(Update, contactId, Some(s.contacts[i]), env.now) in e.state.pendingChanges
      && i < |e.state.contacts|
      && e.state.contacts[i].communications ==
           Some([Communication(env.uuid, TypeList(types), notes, date.GetOr(env.now))] + s.contacts[i].communications.GetOr([]))
  {
    var comm := Communication(env.uuid, TypeList(types), notes, date.GetOr(env.now));
    var ch := PendingChange(Update, contactId, Some(s.contacts[i]), env.now);
    var s0 := Reduce(s, SetLoading(true), env);
    var s1 := Reduce(s0, AddCommunication(contactId, types, notes, date), env);
    OfflineCommunicationShape(s, contactId, types, notes, date, remote, k, env, i);
    QueuedAfterLogging(Dispatched(s, AddCommunication(contactId, types, notes, date), remote, k, env).state, s1, ch, env);
    CoalesceIncludes(s1.pendingChanges, ch);
    LogCommunicationAt(s0.contacts, contactId, comm, false, i);
  }

  /** Offline, a loading-framed action is its offline branch between SET_LOADING
      true and false, and sends nothing. */
  lemma OfflineDispatched(s: ContactState, a: Action, remote: Remote, k: nat, env: Env)
    requires s.offlineMode && TogglesLoading(a)
    ensures Dispatched(s, a, remote, k, env) ==
              Effect(Reduce(Reduce(OfflineStep(s, Reduce(s, SetLoading(true), env), a, env), SetLoading(false), env),
                            SetLoading(false), env), [])
  {
  }

  /** Online ADD_COMMUNICATION logs the entry locally without the chosen date:
      when the post fails, the contact's `lastContactedAt` is "now" whatever
      date was picked. */
  lemma OnlineCommunicationDropsDate(s: ContactState, contactId: string, types: seq<CommunicationType>,
                                     notes: string, d: Timestamp, remote: Remote, k: nat, env: Env, i: nat)
    requires !s.offlineMode
    requires i < |s.contacts| && s.contacts[i].id == contactId
    requires ApiCall(remote, k, AddCommReq(contactId, types, notes)).outcome.Err?
    ensures var e := Dispatched(s, AddCommunication(contactId, types, notes, Some(d)), remote, k, env);
      i < |e.state.contacts| && e.state.contacts[i].lastContactedAt == Some(env.now)
  {
    var s0 := Reduce(s, SetLoading(true), env);
    var s1 := Reduce(s0, AddCommunication(contactId, types, notes, None), env);
    assert s1.contacts[i].lastContactedAt == Some(env.now);
    var found := FindContact(s.contacts, contactId);
    var change := if found.Some? then Some(PendingChange(Update, found.value.id, found, env.now)) else None;
    var post := ApiCall(remote, k, AddCommReq(contactId, types, notes));
    FailedFacts(s1, post.outcome.message, change, env);
    OnlineCommunicationFails(s1, change, AddCommReq(contactId, types, notes), remote, k, env);
    OnlineDispatched(s, AddCommunication(contactId, types, notes, Some(d)), remote, k, env);
  }

  /** Online, a loading-framed action is its online branch between SET_LOADING true and false. */
  lemma OnlineDispatched(s: ContactState, a: Action, remote: Remote, k: nat, env: Env)
    requires !s.offlineMode && TogglesLoading(a)
    ensures var e := OnlineStep(s, Reduce(s, SetLoading(true), env), a, remote, k, env);
      Dispatched(s, a, remote, k, env) == Effect(Reduce(e.state, SetLoading(false), env), e.requests)
  {
  }

  /** The state the online ADD_COMMUNICATION leaves once the post succeeded
      and the refresh failed. */
  lemma RefreshFailureShape(s: ContactState, contactId: string, types: seq<CommunicationType>,
                            notes: string, date: Option<Timestamp>, remote: Remote, k: nat, env: Env)
    requires !s.offlineMode
    requires ApiCall(remote, k, AddCommReq(contactId, types, notes)).outcome.Ok?
    requires ApiCall(remote, k + 1, FetchOneReq(contactId)).outcome.Err?
    ensures var s1 := Reduce(Reduce(s, SetLoading(true), env), AddCommunication(contactId, types, notes, None), env);
      var found := FindContact(s.contacts, contactId);
      var change := if found.Some? then Some(PendingChange(Update, found.value.id, found, env.now)) else None;
      var m := ApiCall(remote, k + 1, FetchOneReq(contactId)).outcome.message;
      Dispatched(s, AddCommunication(contactId, types, notes, date), remote, k, env) ==
        Effect(Reduce(Failed(s1, m, change, env), SetLoading(false), env),
               [AddCommReq(contactId, types, notes), FetchOneReq(contactId)])
  {
    var s1 := Reduce(Reduce(s, SetLoading(true), env), AddCommunication(contactId, types, notes, None), env);
    var found := FindContact(s.contacts, contactId);
    var change := if found.Some? then Some(PendingChange(Update, found.value.id, found, env.now)) else None;
    OnlineCommunicationSettles(s1, change, AddCommReq(contactId, types, notes), remote, k, env);
    OnlineDispatched(s, AddCommunication(contactId, types, notes, date), remote, k, env);
  }

  /** Once the communication is posted, ANY failure of the refresh reads as
      lost connectivity, because of `fetchContact`'s own error prefix. */
  lemma RefreshFailureGoesOffline(s: ContactState, contactId: string, types: seq<CommunicationType>,
                                  notes: string, date: Option<Timestamp>, remote: Remote, k: nat, env: Env)
    requires !s.offlineMode
    requires contactId != "" && types != []
    requires remote.reply(k, AddCommReq(contactId, types, notes)).Ok?
    requires remote.reply(k + 1, FetchOneReq(contactId)).Err?
    ensures var e := Dispatched(s, AddCommunication(contactId, types, notes, date), remote, k, env);
      && e.state.offlineMode
      && e.state.error == Some(NETWORK_LOST)
      && e.requests == [AddCommReq(contactId, types, notes), FetchOneReq(contactId)]
  {
    FetchOneFailureLooksLikeConnectivity(remote, k + 1, contactId);
    RefreshFailureShape(s, contactId, types, notes, date, remote, k, env);
    var s1 := Reduce(Reduce(s, SetLoading(true), env), AddCommunication(contactId, types, notes, None), env);
    var found := FindContact(s.contacts, contactId);
    var change := if found.Some? then Some(PendingChange(Update, found.value.id, found, env.now)) else None;
    FailedReport(s1, ApiCall(remote, k + 1, FetchOneReq(contactId)).outcome.message, change, env);
  }

  // ---------------------------------------------------------------------------
  // The coalesced queue is an invariant of the store

  lemma {:induction false} RemoveChangesKeepsCoalesced(queue: seq<PendingChange>, id: string)
    requires CoalescedQueue(queue)
    ensures CoalescedQueue(RemoveChanges(queue, id))
  {
    if queue != [] {
      RemoveChangesKeepsCoalesced(queue[1..], id);
      RemoveChangesMembers(queue[1..], id);
      var rest := RemoveChanges(queue[1..], id);
      if queue[0].id != id {
        forall j | 0 <= j < |rest| ensures !(rest[j].id == queue[0].id && rest[j].kind == queue[0].kind) {
          assert rest[j] in queue[1..];
        }
      }
    }
  }

  /** Every reducer step keeps the queue coalesced (LOAD_DATA when what it loads is). */
  lemma ReduceKeepsCoalesced(s: ContactState, a: Action, env: Env)
    requires CoalescedQueue(s.pendingChanges)
    requires a.LoadData? ==> CoalescedQueue(a.saved.pendingChanges)
    ensures CoalescedQueue(Reduce(s, a, env).pendingChanges)
  {
    match a {
      case AddPendingChange(ch) => AddPendingChangeKeepsQueueCoalesced(s, ch, env);
      case RemovePendingChange(id) => RemoveChangesKeepsCoalesced(s.pendingChanges, id);
      case _ =>
    }
  }

  lemma FailedKeepsCoalesced(live: ContactState, message: string, change: Option<PendingChange>, env: Env)
    requires CoalescedQueue(live.pendingChanges)
    ensures CoalescedQueue(Failed(live, message, change, env).pendingChanges)
  {
    if IsConnectivityError(message) && change.Some? {
      ReduceKeepsCoalesced(Reduce(live, SetOfflineMode(true), env), AddPendingChange(change.value), env);
    }
  }

  lemma SettledKeepsCoalesced(live: ContactState, outcome: Outcome<Contact>, change: Option<PendingChange>, env: Env)
    requires CoalescedQueue(live.pendingChanges)
    ensures CoalescedQueue(Settled(live, outcome, change, env).pendingChanges)
  {
    if outcome.Err? {
      FailedKeepsCoalesced(live, outcome.message, change, env);
    }
  }

  lemma OfflineKeepsCoalesced(s: ContactState, live: ContactState, a: Action, env: Env)
    requires CoalescedQueue(live.pendingChanges)
    requires a.LoadData? ==> CoalescedQueue(a.saved.pendingChanges)
    ensures CoalescedQueue(OfflineStep(s, live, a, env).pendingChanges)
  {
    match a {
      case AddContact(c) =>
        ReduceKeepsCoalesced(live, AddPendingChange(PendingChange(Create, c.id, Some(c), env.now)), env);
      case UpdateContact(c) =>
        ReduceKeepsCoalesced(live, AddPendingChange(PendingChange(Update, c.id, Some(c), env.now)), env);
      case DeleteContact(id) =>
        ReduceKeepsCoalesced(live, AddPendingChange(PendingChange(Delete, id, None, env.now)), env);
      case AddCommunication(contactId, _, _, _) =>
        var found := FindContact(s.contacts, contactId);
        if found.Some? {
          ReduceKeepsCoalesced(Reduce(live, a, env), AddPendingChange(PendingChange(Update, found.value.id, found, env.now)), env);
        }
      case _ =>
        ReduceKeepsCoalesced(live, a, env);
    }
  }

  lemma OnlineSaveKeepsCoalesced(s: ContactState, live: ContactState, a: Action, remote: Remote, k: nat, env: Env)
    requires a.AddContact? || a.UpdateContact?
    requires CoalescedQueue(live.pendingChanges)
    ensures CoalescedQueue(OnlineStep(s, live, a, remote, k, env).state.pendingChanges)
  {
    if a.UpdateContact? && a.contact.id == "" {
      assert OnlineStep(s, live, a, remote, k, env).state == Reduce(live, SetError(Some(MISSING_ID)), env);
    } else {
      var c := a.contact;
      var call := ApiCall(remote, k, RequestFor(a));
      var change := Some(QueuedFor(a, env));
      assert OnlineStep(s, live, a, remote, k, env).state == Settled(Reduce(live, a, env), call.outcome, change, env);
      SettledKeepsCoalesced(Reduce(live, a, env), call.outcome, change, env);
    }
  }

  lemma OnlineDeleteKeepsCoalesced(s: ContactState, live: ContactState, id: string, remote: Remote, k: nat, env: Env)
    requires CoalescedQueue(live.pendingChanges)
    ensures CoalescedQueue(OnlineStep(s, live, DeleteContact(id), remote, k, env).state.pendingChanges)
  {
    var s1 := Reduce(live, DeleteContact(id), env);
    var call := ApiCall(remote, k, DeleteReq(id));
    var change := Some(PendingChange(Delete, id, None, env.now));
    if call.outcome.Err? {
      assert OnlineStep(s, live, DeleteContact(id), remote, k, env).state == Failed(s1, call.outcome.message, change, env);
      FailedKeepsCoalesced(s1, call.outcome.message, change, env);
    } else {
      assert OnlineStep(s, live, DeleteContact(id), remote, k, env).state == s1;
    }
  }

  /** The online ADD_COMMUNICATION branch once the post succeeded: refresh the contact. */
  lemma OnlineCommunicationSettles(s1: ContactState, change: Option<PendingChange>, post: Request,
                                   remote: Remote, k: nat, env: Env)
    requires post.AddCommReq? && ApiCall(remote, k, post).outcome.Ok?
    ensures var fetch := ApiCall(remote, k + 1, FetchOneReq(post.contactId));
      OnlineCommunication(s1, change, post, remote, k, env) ==
        Effect(Settled(s1, fetch.outcome, change, env), [post] + fetch.sent)
  {
  }

  /** The online ADD_COMMUNICATION branch when the post failed. */
  lemma OnlineCommunicationFails(s1: ContactState, change: Option<PendingChange>, post: Request,
                                 remote: Remote, k: nat, env: Env)
    requires post.AddCommReq? && ApiCall(remote, k, post).outcome.Err?
    ensures var posted := ApiCall(remote, k, post);
      OnlineCommunication(s1, change, post, remote, k, env) ==
        Effect(Failed(s1, posted.outcome.message, change, env), posted.sent)
  {
  }

  lemma OnlineCommunicationKeepsCoalesced(s1: ContactState, change: Option<PendingChange>, post: Request,
                                          remote: Remote, k: nat, env: Env)
    requires post.AddCommReq?
    requires CoalescedQueue(s1.pendingChanges)
    ensures CoalescedQueue(OnlineCommunication(s1, change, post, remote, k, env).state.pendingChanges)
  {
    var posted := ApiCall(remote, k, post);
    if posted.outcome.Err? {
      OnlineCommunicationFails(s1, change, post, remote, k, env);
      FailedKeepsCoalesced(s1, posted.outcome.message, change, env);
    } else {
      OnlineCommunicationSettles(s1, change, post, remote, k, env);
      SettledKeepsCoalesced(s1, ApiCall(remote, k + 1, FetchOneReq(post.contactId)).outcome, change, env);
    }
  }

  lemma OnlineKeepsCoalesced(s: ContactState, live: ContactState, a: Action, remote: Remote, k: nat, env: Env)
    requires CoalescedQueue(live.pendingChanges)
    requires a.LoadData? ==> CoalescedQueue(a.saved.pendingChanges)
    ensures CoalescedQueue(OnlineStep(s, live, a, remote, k, env).state.pendingChanges)
  {
    match a {
      case AddContact(_) => OnlineSaveKeepsCoalesced(s, live, a, remote, k, env);
      case UpdateContact(_) => OnlineSaveKeepsCoalesced(s, live, a, remote, k, env);
      case DeleteContact(id) => OnlineDeleteKeepsCoalesced(s, live, id, remote, k, env);
      case AddCommunication(contactId, types, notes, _) =>
        var found := FindContact(s.contacts, contactId);
        var change := if found.Some? then Some(PendingChange(Update, found.value.id, found, env.now)) else None;
        var s1 := Reduce(live, AddCommunication(contactId, types, notes, None), env);
        assert s1.pendingChanges == live.pendingChanges;
        OnlineCommunicationKeepsCoalesced(s1, change, AddCommReq(contactId, types, notes), remote, k, env);
      case _ =>
        assert OnlineStep(s, live, a, remote, k, env) == Effect(Reduce(live, a, env), []);
        ReduceKeepsCoalesced(live, a, env);
    }
  }

  /** `enhancedDispatch` never puts two changes with the same id and type in the queue. */
  lemma DispatchKeepsQueueCoalesced(s: ContactState, a: Action, remote: Remote, k: nat, env: Env)
    requires CoalescedQueue(s.pendingChanges)
    requires a.LoadData? ==> CoalescedQueue(a.saved.pendingChanges)
    ensures CoalescedQueue(Dispatched(s, a, remote, k, env).state.pendingChanges)
  {
    var s0 := if TogglesLoading(a) then Reduce(s, SetLoading(true), env) else s;
    if s.offlineMode {
      OfflineKeepsCoalesced(s, s0, a, env);
    } else {
      OnlineKeepsCoalesced(s, s0, a, remote, k, env);
    }
  }

  // ---------------------------------------------------------------------------
  // syncWithServer

  lemma {:induction false} UnsyncedMembers(contacts: seq<Contact>)
    ensures forall c :: c in Unsynced(contacts) <==> c in contacts && c.synced == Some(false)
    ensures |Unsynced(contacts)| <= |contacts|
  {
    if contacts != [] {
      UnsyncedMembers(contacts[1..]);
      assert contacts == [contacts[0]] + contacts[1..];
    }
  }

  /** The test `!contact._synced` of the offline tombstone branch always
      passes: every contact the sync selects has `_synced === false`. */
  lemma SelectedContactsAreUnsynced(contacts: seq<Contact>)
    ensures forall c :: c in Unsynced(contacts) ==> c.synced != Some(true)
  {
    UnsyncedMembers(contacts);
  }

  /** The retry loop sends between one and three deletes for the same id, and
      reports failure only after the third. */
  /** Every request of `sent` deletes `id`. */
  predicate OnlyDeletes(sent: seq<Request>, id: string) {
    forall i :: 0 <= i < |sent| ==> sent[i] == DeleteReq(id)
  }

  lemma {:induction false} DeleteRetryBounds(remote: Remote, k: nat, id: string, attempts: nat)
    requires attempts < 3 && id != ""
    ensures var r := DeleteRetry(remote, k, id, attempts);
      && 1 <= |r.sent| <= 3 - attempts
      && OnlyDeletes(r.sent, id)
      && (!r.ok ==> |r.sent| == 3 - attempts)
    decreases 3 - attempts
  {
    if attempts + 1 < 3 {
      DeleteRetryBounds(remote, k + 1, id, attempts + 1);
    }
  }

  /** The request warranted by a contact the sync selected: a create exactly
      when a create is queued for its id, an update otherwise, and a delete for
      a tombstone only while online with the probe answering. */
  ghost predicate Warranted(snapshot: ContactState, probe: bool, universe: seq<Contact>, r: Request) {
    match r
    case CreateReq(x) =>
      probe && exists u :: u in universe && u.deleted != Some(true) && x == Clean(u) &&
                           FindChangeIndex(snapshot.pendingChanges, u.id, Create) >= 0
    case UpdateReq(id, x) =>
      probe && exists u :: u in universe && u.deleted != Some(true) && x == Clean(u) && id == u.id &&
                           FindChangeIndex(snapshot.pendingChanges, u.id, Create) < 0
    case DeleteReq(id) =>
      probe && !snapshot.offlineMode && exists u :: u in universe && u.deleted == Some(true) && u.id == id
    case _ => false
  }

  ghost predicate AllWarranted(snapshot: ContactState, probe: bool, universe: seq<Contact>, rs: seq<Request>) {
    forall i :: 0 <= i < |rs| ==> Warranted(snapshot, probe, universe, rs[i])
  }

  /** The facts one iteration of the sync loop keeps. */
  ghost predicate StepKeeps(snapshot: ContactState, probe: bool, universe: seq<Contact>, p: Pass, q: Pass) {
    && q.live.offlineMode == p.live.offlineMode
    && (forall ch :: ch in q.live.pendingChanges ==> ch in p.live.pendingChanges)
    && AllWarranted(snapshot, probe, universe, q.sent)
    && |p.sent| <= |q.sent| <= |p.sent| + 3
    && (!probe ==> q.sent == p.sent)
    && (probe ==> q.success + q.failure == p.success + p.failure + 1)
    && q.success + q.failure <= p.success + p.failure + 1
  }

  lemma WarrantedAppend(snapshot: ContactState, probe: bool, universe: seq<Contact>, a: seq<Request>, b: seq<Request>)
    requires AllWarranted(snapshot, probe, universe, a) && AllWarranted(snapshot, probe, universe, b)
    ensures AllWarranted(snapshot, probe, universe, a + b)
  {
    forall i | 0 <= i < |a + b| ensures Warranted(snapshot, probe, universe, (a + b)[i]) {
      if i < |a| {
        assert (a + b)[i] == a[i];
      } else {
        assert (a + b)[i] == b[i - |a|];
      }
    }
  }

  /** The tombstone branch of one iteration when no delete is sent. */
  lemma TombstoneSkippedFacts(snapshot: ContactState, probe: bool, remote: Remote, k: nat, env: Env,
                              p: Pass, c: Contact, universe: seq<Contact>)
    requires c.synced == Some(false)
    requires c.id == "" || snapshot.offlineMode || !probe
    requires AllWarranted(snapshot, probe, universe, p.sent)
    ensures StepKeeps(snapshot, probe, universe, p, TombstoneStep(snapshot, probe, remote, k, env, p, c))
  {
    assert p.sent + [] == p.sent;
    if c.id == "" {
      assert TombstoneStep(snapshot, probe, remote, k, env, p, c) == Fail(p, c.id, MISSING_DELETE_ID, [], env);
    } else {
      RemoveChangesMembers(p.live.pendingChanges, c.id);
      assert TombstoneStep(snapshot, probe, remote, k, env, p, c) == Succeed(p, RemovePendingChange(c.id), [], env);
    }
  }

  /** An iteration that sent `sent` (warranted, at most three) and counted one contact. */
  lemma CountedStepKeeps(snapshot: ContactState, probe: bool, universe: seq<Contact>, p: Pass, q: Pass, sent: seq<Request>)
    requires q.live.offlineMode == p.live.offlineMode
    requires forall ch :: ch in q.live.pendingChanges ==> ch in p.live.pendingChanges
    requires q.sent == p.sent + sent && |sent| <= 3 && (!probe ==> sent == [])
    requires AllWarranted(snapshot, probe, universe, p.sent) && AllWarranted(snapshot, probe, universe, sent)
    requires q.success + q.failure == p.success + p.failure + 1
    ensures StepKeeps(snapshot, probe, universe, p, q)
  {
    WarrantedAppend(snapshot, probe, universe, p.sent, sent);
  }

  /** A successful iteration that drops the queued changes of `id`. */
  lemma RemovedStepKeeps(snapshot: ContactState, probe: bool, universe: seq<Contact>, p: Pass, id: string,
                         sent: seq<Request>, env: Env)
    requires |sent| <= 3 && (!probe ==> sent == [])
    requires AllWarranted(snapshot, probe, universe, p.sent) && AllWarranted(snapshot, probe, universe, sent)
    ensures StepKeeps(snapshot, probe, universe, p, Succeed(p, RemovePendingChange(id), sent, env))
  {
    RemoveChangesMembers(p.live.pendingChanges, id);
    CountedStepKeeps(snapshot, probe, universe, p, Succeed(p, RemovePendingChange(id), sent, env), sent);
  }

  /** A failed iteration: only `error` and the failure count change. */
  lemma FailedStepKeeps(snapshot: ContactState, probe: bool, universe: seq<Contact>, p: Pass, id: string,
                        message: string, sent: seq<Request>, env: Env)
    requires |sent| <= 3 && (!probe ==> sent == [])
    requires AllWarranted(snapshot, probe, universe, p.sent) && AllWarranted(snapshot, probe, universe, sent)
    ensures StepKeeps(snapshot, probe, universe, p, Fail(p, id, message, sent, env))
  {
    CountedStepKeeps(snapshot, probe, universe, p, Fail(p, id, message, sent, env), sent);
  }

  /** Deletes of a selected tombstone, sent online with the probe answering, are warranted. */
  lemma DeletesWarranted(snapshot: ContactState, probe: bool, universe: seq<Contact>, sent: seq<Request>, c: Contact)
    requires c in universe && c.deleted == Some(true) && !snapshot.offlineMode && probe
    requires OnlyDeletes(sent, c.id)
    ensures AllWarranted(snapshot, probe, universe, sent)
  {
    forall i | 0 <= i < |sent| ensures Warranted(snapshot, probe, universe, sent[i]) {
      assert sent[i] == DeleteReq(c.id);
    }
  }

  /** The retry loop for a selected tombstone sends at most three warranted requests. */
  lemma RetryWarranted(snapshot: ContactState, probe: bool, universe: seq<Contact>, remote: Remote, k: nat, c: Contact)
    requires c in universe && RetriesDelete(snapshot, probe, c)
    ensures var r := DeleteRetry(remote, k, c.id, 0);
      |r.sent| <= 3 && AllWarranted(snapshot, probe, universe, r.sent)
  {
    DeleteRetryBounds(remote, k, c.id, 0);
    DeletesWarranted(snapshot, probe, universe, DeleteRetry(remote, k, c.id, 0).sent, c);
  }

  /** The iteration for a tombstone whose delete was retried with outcome `r`. */
  function Retried(p: Pass, r: Retry, id: string, env: Env): Pass {
    if r.ok then Succeed(p, RemovePendingChange(id), r.sent, env) else Fail(p, id, r.message, r.sent, env)
  }

  /** The tombstone branch of the sync loop that sends deletes: a tombstone with
      an id, while online with the probe answering. */
  predicate RetriesDelete(snapshot: ContactState, probe: bool, c: Contact) {
    c.deleted == Some(true) && c.id != "" && !snapshot.offlineMode && probe
  }

  lemma TombstoneRetriedShape(snapshot: ContactState, probe: bool, remote: Remote, k: nat, env: Env, p: Pass, c: Contact)
    requires RetriesDelete(snapshot, probe, c)
    ensures TombstoneStep(snapshot, probe, remote, k, env, p, c) == Retried(p, DeleteRetry(remote, k, c.id, 0), c.id, env)
  {
  }

  lemma RetriedKeeps(snapshot: ContactState, probe: bool, universe: seq<Contact>, remote: Remote, k: nat,
                     env: Env, p: Pass, c: Contact)
    requires c in universe && RetriesDelete(snapshot, probe, c)
    requires AllWarranted(snapshot, probe, universe, p.sent)
    ensures StepKeeps(snapshot, probe, universe, p, Retried(p, DeleteRetry(remote, k, c.id, 0), c.id, env))
  {
    var r := DeleteRetry(remote, k, c.id, 0);
    RetryWarranted(snapshot, probe, universe, remote, k, c);
    if r.ok {
      RemovedStepKeeps(snapshot, probe, universe, p, c.id, r.sent, env);
    } else {
      FailedStepKeeps(snapshot, probe, universe, p, c.id, r.message, r.sent, env);
    }
  }

  /** The tombstone branch of one iteration. */
  lemma TombstoneStepFacts(snapshot: ContactState, probe: bool, remote: Remote, k: nat, env: Env,
                           p: Pass, c: Contact, universe: seq<Contact>)
    requires c in universe && c.synced == Some(false) && c.deleted == Some(true)
    requires AllWarranted(snapshot, probe, universe, p.sent)
    ensures StepKeeps(snapshot, probe, universe, p, TombstoneStep(snapshot, probe, remote, k, env, p, c))
  {
    if c.id == "" || snapshot.offlineMode || !probe {
      TombstoneSkippedFacts(snapshot, probe, remote, k, env, p, c, universe);
    } else {
      TombstoneRetriedShape(snapshot, probe, remote, k, env, p, c);
      RetriedKeeps(snapshot, probe, universe, remote, k, env, p, c);
    }
  }

  /** The create-or-update branch of one iteration. */
  lemma UpsertStepFacts(snapshot: ContactState, probe: bool, remote: Remote, k: nat, env: Env,
                        p: Pass, c: Contact, universe: seq<Contact>)
    requires c in universe && c.synced == Some(false) && c.deleted != Some(true) && probe
    requires AllWarranted(snapshot, probe, universe, p.sent)
    ensures StepKeeps(snapshot, probe, universe, p, UpsertStep(snapshot, remote, k, env, p, c))
  {
    var req := if FindChangeIndex(snapshot.pendingChanges, c.id, Create) >= 0
               then CreateReq(Clean(c)) else UpdateReq(c.id, Clean(c));
    var call := ApiCall(remote, k, req);
    assert Warranted(snapshot, probe, universe, req);
    assert AllWarranted(snapshot, probe, universe, call.sent) by {
      forall i | 0 <= i < |call.sent| ensures Warranted(snapshot, probe, universe, call.sent[i]) {
        assert call.sent[i] == req;
      }
    }
    WarrantedAppend(snapshot, probe, universe, p.sent, call.sent);
    match call.outcome {
      case Ok(server) =>
        assert UpsertStep(snapshot, remote, k, env, p, c) == Succeed(p, UpdateContact(WithSynced(server, true)), call.sent, env);
      case Err(m) =>
        assert UpsertStep(snapshot, remote, k, env, p, c) == Fail(p, c.id, m, call.sent, env);
    }
  }

  /** One iteration of the sync loop, taken apart by the kind of contact. */
  lemma SyncStepCases(snapshot: ContactState, probe: bool, remote: Remote, k0: nat, env: Env, p: Pass, c: Contact)
    ensures var q := SyncStep(snapshot, probe, remote, k0, env, p, c);
      && (c.deleted == Some(true) ==> q == TombstoneStep(snapshot, probe, remote, k0 + |p.sent|, env, p, c))
      && (c.deleted != Some(true) && !probe ==> q == p)
      && (c.deleted != Some(true) && probe ==> q == UpsertStep(snapshot, remote, k0 + |p.sent|, env, p, c))
  {
  }

  /** The facts of one iteration `q` of the sync loop for `c`. */
  lemma SyncStepFacts(snapshot: ContactState, probe: bool, remote: Remote, k: nat, env: Env,
                      p: Pass, c: Contact, universe: seq<Contact>, q: Pass)
    requires c in universe && c.synced == Some(false)
    requires AllWarranted(snapshot, probe, universe, p.sent)
    requires c.deleted == Some(true) ==> q == TombstoneStep(snapshot, probe, remote, k, env, p, c)
    requires c.deleted != Some(true) && !probe ==> q == p
    requires c.deleted != Some(true) && probe ==> q == UpsertStep(snapshot, remote, k, env, p, c)
    ensures StepKeeps(snapshot, probe, universe, p, q)
  {
    if c.deleted == Some(true) {
      TombstoneStepFacts(snapshot, probe, remote, k, env, p, c, universe);
    } else if probe {
      UpsertStepFacts(snapshot, probe, remote, k, env, p, c, universe);
    }
  }

  lemma {:induction false} SyncLoopFacts(snapshot: ContactState, probe: bool, remote: Remote, k0: nat, env: Env,
                                         p: Pass, items: seq<Contact>, universe: seq<Contact>)
    requires forall c :: c in items ==> c in universe && c.synced == Some(false)
    requires AllWarranted(snapshot, probe, universe, p.sent)
    ensures var q := SyncLoop(snapshot, probe, remote, k0, env, p, items);
      && q.live.offlineMode == p.live.offlineMode
      && (forall ch :: ch in q.live.pendingChanges ==> ch in p.live.pendingChanges)
      && AllWarranted(snapshot, probe, universe, q.sent)
      && |q.sent| <= |p.sent| + 3 * |items|
      && (!probe ==> q.sent == p.sent)
      && (probe ==> q.success + q.failure == p.success + p.failure + |items|)
      && q.success + q.failure <= p.success + p.failure + |items|
    decreases |items|
  {
    if items != [] {
      var p' := SyncStep(snapshot, probe, remote, k0, env, p, items[0]);
      SyncStepCases(snapshot, probe, remote, k0, env, p, items[0]);
      SyncStepFacts(snapshot, probe, remote, k0 + |p.sent|, env, p, items[0], universe, p');
      assert forall c :: c in items[1..] ==> c in items;
      SyncLoopFacts(snapshot, probe, remote, k0, env, p', items[1..], universe);
    }
  }

  /** The loop of a sync from `s`, with its facts. */
  lemma SyncPassFacts(s: ContactState, probe: bool, remote: Remote, k0: nat, env: Env)
    ensures var p := SyncPass(s, probe, remote, k0, env);
      && p.live.offlineMode == s.offlineMode
      && (forall ch :: ch in p.live.pendingChanges ==> ch in s.pendingChanges)
      && AllWarranted(s, probe, Unsynced(s.contacts), p.sent)
      && |p.sent| <= 3 * |Unsynced(s.contacts)|
      && (!probe ==> p.sent == [])
      && (probe ==> p.success + p.failure == |Unsynced(s.contacts)|)
      && p.success + p.failure <= |Unsynced(s.contacts)|
  {
    UnsyncedMembers(s.contacts);
    SyncLoopFacts(s, probe, remote, k0, env, Pass(Reduce(s, SetSyncing(true), env), [], 0, 0),
                  Unsynced(s.contacts), Unsynced(s.contacts));
  }

  /** With the server unreachable and the store online, the sync only reports
      it: `syncing` is never set and nothing is sent. */
  lemma SyncUnavailableOnlyReports(s: ContactState, remote: Remote, k0: nat, env: Env)
    requires !s.offlineMode
    ensures Synced(s, false, remote, k0, env) == Effect(s.(error := Some(SERVER_UNAVAILABLE)), [])
  {
  }

  /** What follows the loop: a clean pass leaves offline mode and empties the
      queue (the refresh only replaces the list or sets `error`); any other pass
      leaves the state as the loop left it. */
  lemma AfterLoopFacts(p: Pass, probe: bool, remote: Remote, k0: nat, env: Env)
    ensures var e := AfterLoop(p, probe, remote, k0, env);
      && (p.failure == 0 && p.success > 0 ==> !e.state.offlineMode && e.state.pendingChanges == [])
      && (!(p.failure == 0 && p.success > 0) ==> e == Effect(p.live, p.sent))
      && (e.requests == p.sent || e.requests == p.sent + [FetchAllReq])
  {
    if p.failure == 0 && p.success > 0 {
      var s2 := Reduce(Reduce(p.live, SetOfflineMode(false), env), ClearPendingChanges, env);
      assert !s2.offlineMode && s2.pendingChanges == [];
      if probe {
        match FetchAll(remote, k0 + |p.sent|) {
          case Ok(cs) =>
            assert AfterLoop(p, probe, remote, k0, env) == Effect(Reduce(s2, SetContacts(cs), env), p.sent + [FetchAllReq]);
          case Err(_) =>
            assert AfterLoop(p, probe, remote, k0, env) == Effect(Reduce(s2, SetError(Some(REFRESH_FAILED)), env), p.sent + [FetchAllReq]);
        }
      }
    }
  }

  /** Every other sync ends with `syncing` false, and clears `offlineMode` and
      empties the queue exactly when no contact failed and at least one
      succeeded; on any other outcome the mode is kept and the queue only
      loses changes. */
  lemma SyncOutcome(s: ContactState, probe: bool, remote: Remote, k0: nat, env: Env)
    requires probe || s.offlineMode
    ensures var p := SyncPass(s, probe, remote, k0, env);
      var e := Synced(s, probe, remote, k0, env);
      && !e.state.syncing
      && (p.failure == 0 && p.success > 0 ==> !e.state.offlineMode && e.state.pendingChanges == [])
      && (!(p.failure == 0 && p.success > 0) ==>
            e.state.offlineMode == s.offlineMode &&
            forall ch :: ch in e.state.pendingChanges ==> ch in s.pendingChanges)
  {
    SyncPassFacts(s, probe, remote, k0, env);
    AfterLoopFacts(SyncPass(s, probe, remote, k0, env), probe, remote, k0, env);
  }

  /** Each request a sync sends is warranted by a contact it selected: a create
      exactly when a create is queued for that contact's id, otherwise an
      update, each with `_synced`/`_deleted` stripped; deletes only while the
      store is online. At most three requests per selected contact, plus the
      final refresh. */
  lemma SyncRequestsWarranted(s: ContactState, probe: bool, remote: Remote, k0: nat, env: Env)
    requires probe || s.offlineMode
    ensures var p := SyncPass(s, probe, remote, k0, env);
      var e := Synced(s, probe, remote, k0, env);
      && AllWarranted(s, probe, Unsynced(s.contacts), p.sent)
      && (e.requests == p.sent || e.requests == p.sent + [FetchAllReq])
      && |e.requests| <= 3 * |Unsynced(s.contacts)| + 1
  {
    SyncPassFacts(s, probe, remote, k0, env);
    AfterLoopFacts(SyncPass(s, probe, remote, k0, env), probe, remote, k0, env);
  }

  /** While offline, a sync never sends a delete: tombstones are only dropped
      from the queue and counted as successes. With the probe failing too,
      nothing at all is sent. */
  lemma SyncOfflineSendsNoDelete(s: ContactState, probe: bool, remote: Remote, k0: nat, env: Env)
    requires s.offlineMode
    ensures var e := Synced(s, probe, remote, k0, env);
      && (forall i :: 0 <= i < |e.requests| ==> !e.requests[i].DeleteReq?)
      && (!probe ==> e.requests == [])
  {
    SyncPassFacts(s, probe, remote, k0, env);
    var p := SyncPass(s, probe, remote, k0, env);
    AfterLoopFacts(p, probe, remote, k0, env);
    forall i | 0 <= i < |p.sent| ensures !p.sent[i].DeleteReq? {
      assert Warranted(s, probe, Unsynced(s.contacts), p.sent[i]);
    }
  }

  /** A fully successful offline sync with the server reachable replaces the
      local list with the server's, although none of the offline deletions was
      sent: a contact deleted offline comes back whenever the server still has
      it. */
  lemma SyncOfflineRestoresDeleted(s: ContactState, remote: Remote, k0: nat, env: Env)
    requires s.offlineMode
    requires var p := SyncPass(s, true, remote, k0, env);
      p.failure == 0 && p.success > 0 && remote.listing(k0 + |p.sent|).Ok?
    ensures var p := SyncPass(s, true, remote, k0, env);
      var e := Synced(s, true, remote, k0, env);
      && e.state.contacts == remote.listing(k0 + |p.sent|).value
      && (forall i :: 0 <= i < |e.requests| ==> !e.requests[i].DeleteReq?)
  {
    var p := SyncPass(s, true, remote, k0, env);
    var a := AfterLoop(p, true, remote, k0, env);
    var s2 := Reduce(Reduce(p.live, SetOfflineMode(false), env), ClearPendingChanges, env);
    assert a == Effect(Reduce(s2, SetContacts(remote.listing(k0 + |p.sent|).value), env), p.sent + [FetchAllReq]);
    assert Synced(s, true, remote, k0, env) == Effect(Reduce(a.state, SetSyncing(false), env), a.requests);
    SyncOfflineSendsNoDelete(s, true, remote, k0, env);
  }

  /** During an offline sync the server's copy is stored with `_synced = false`,
      because the reducer still sees offline mode. */
  lemma SyncStoresServerCopyAsUnsynced(snapshot: ContactState, remote: Remote, k0: nat, env: Env, p: Pass, c: Contact)
    requires p.live.offlineMode && c.deleted != Some(true)
    requires var req := if FindChangeIndex(snapshot.pendingChanges, c.id, Create) >= 0
                        then CreateReq(Clean(c)) else UpdateReq(c.id, Clean(c));
      ApiCall(remote, k0 + |p.sent|, req).outcome.Ok?
    ensures var q := SyncStep(snapshot, true, remote, k0, env, p, c);
      && |q.live.contacts| == |p.live.contacts|
      && forall i :: 0 <= i < |p.live.contacts| && q.live.contacts[i] != p.live.contacts[i] ==>
                       q.live.contacts[i].synced == Some(false)
  {
    var req := if FindChangeIndex(snapshot.pendingChanges, c.id, Create) >= 0
               then CreateReq(Clean(c)) else UpdateReq(c.id, Clean(c));
    var server := ApiCall(remote, k0 + |p.sent|, req).outcome.value;
    assert SyncStep(snapshot, true, remote, k0, env, p, c) ==
           Succeed(p, UpdateContact(WithSynced(server, true)), ApiCall(remote, k0 + |p.sent|, req).sent, env);
    UpdateContactReplaces(p.live, WithSynced(server, true), env);
  }
}
