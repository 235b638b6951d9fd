/** `ContactProvider` of context/contact-context.tsx: the store that owns the
    reducer state, `enhancedDispatch` (local change first, then the remote
    store, falling back to offline mode on a connectivity failure),
    `syncWithServer` (replays unsynced contacts against the remote store) and the
    availability-probe effects.

    The remote store is an oracle: `Remote.reply(k, req)` is what the server
    answers to the k-th request this store sends, so every sequence of
    successes, "Failed to fetch" errors and other errors is covered. The probe
    result, the fresh id and the clock are parameters. */
module ContactProvider {
  import opened Common
  import opened ContactTypes
  import opened ContactReducer

  datatype Outcome<T> = Ok(value: T) | Err(message: string)

  /** A request to the REST API behind `API_URL`. */
  datatype Request =
    | CreateReq(contact: Contact)
    | UpdateReq(id: string, patch: Contact)
    | DeleteReq(id: string)
    | AddCommReq(contactId: string, types: seq<CommunicationType>, notes: string)
    | FetchOneReq(id: string)
    | FetchAllReq

  /** The server's behaviour. `reply` gives the outcome of the k-th request
      (for delete and communication requests only success or failure is
      read); `listing` gives the outcome of a `GET /contacts` sent as the k-th
      request. An `Err` carries the message the fetch layer raised, before the
      helper wraps it. */
  datatype Remote = Remote(reply: (nat, Request) -> Outcome<Contact>, listing: nat -> Outcome<seq<Contact>>)

  /** What the store reads back from one API helper, and the requests it sent. */
  datatype Reply = Reply(outcome: Outcome<Contact>, sent: seq<Request>)

  /** The final state and the requests sent by one store operation. */
  datatype Effect = Effect(state: ContactState, requests: seq<Request>)

  const ID_REQUIRED := "Contact ID is required"
  const TYPE_REQUIRED := "Communication type is required"
  const MISSING_ID := "Cannot update contact: Missing contact ID"
  const NETWORK_LOST := "Network connection lost. Working in offline mode."
  const SERVER_UNAVAILABLE := "Cannot sync: Server is unavailable."
  const REFRESH_FAILED := "Sync succeeded but failed to refresh contacts."
  const UNREACHABLE_ON_MOUNT := "Unable to connect to the server. Working in offline mode."
  const CONNECTION_RESTORED := "Connection restored. Click 'Sync' to upload your changes."
  const MISSING_DELETE_ID := "Missing contact ID for deletion"

  /** A failure counts as lost connectivity when its message mentions "Failed to fetch". */
  predicate IsConnectivityError(message: string) {
    Contains(message, "Failed to fetch")
  }

  /** The argument check an API helper makes before it touches the network. */
  function Guard(req: Request): Option<string> {
    match req
    case UpdateReq(id, _) => if id == "" then Some(ID_REQUIRED) else None
    case DeleteReq(id) => if id == "" then Some(ID_REQUIRED) else None
    case AddCommReq(id, types, _) =>
      if id == "" then Some(ID_REQUIRED) else if types == [] then Some(TYPE_REQUIRED) else None
    case _ => None
  }

  /** The prefix an API helper puts in front of the message of a failed request. */
  function ErrorPrefix(req: Request): string {
    match req
    case CreateReq(_) => "Failed to create contact: "
    case UpdateReq(_, _) => "Failed to update contact: "
    case DeleteReq(_) => "Failed to delete contact: "
    case AddCommReq(_, _, _) => "Failed to create communication: "
    case FetchOneReq(_) => "Failed to fetch contact: "
    case FetchAllReq => "Failed to fetch contacts: "
  }

  /** `createContact`, `updateContactApi`, ... sent as the k-th request. */
  function ApiCall(remote: Remote, k: nat, req: Request): (r: Reply)
    ensures Guard(req).Some? ==> r == Reply(Err(Guard(req).value), [])
    ensures Guard(req).None? ==> r.sent == [req]
    ensures Guard(req).None? && remote.reply(k, req).Ok? ==> r.outcome == remote.reply(k, req)
    ensures Guard(req).None? && remote.reply(k, req).Err? ==>
              r.outcome == Err(ErrorPrefix(req) + remote.reply(k, req).message)
  {
    if Guard(req).Some? then Reply(Err(Guard(req).value), [])
    else match remote.reply(k, req)
      case Ok(c) => Reply(Ok(c), [req])
      case Err(m) => Reply(Err(ErrorPrefix(req) + m), [req])
  }

  /** `fetchContacts` sent as the k-th request. */
  function FetchAll(remote: Remote, k: nat): Outcome<seq<Contact>> {
    match remote.listing(k)
    case Ok(cs) => Ok(cs)
    case Err(m) => Err(ErrorPrefix(FetchAllReq) + m)
  }

  // ---------------------------------------------------------------------------
  // enhancedDispatch, as a function of the state it was called with

  /** Every action except these six is framed by SET_LOADING true / false. */
  predicate TogglesLoading(a: Action) {
    !(a.SetAuthenticated? || a.SetOfflineMode? || a.AddPendingChange? ||
      a.RemovePendingChange? || a.ClearPendingChanges? || a.SetSyncing?)
  }

  /** The `catch (apiError)` blocks: lost connectivity switches to offline
      mode, queues `change` (when there is one) and says so; any other failure
      is only reported. */
  function Failed(live: ContactState, message: string, change: Option<PendingChange>, env: Env): ContactState {
    if IsConnectivityError(message) then
      var s1 := Reduce(live, SetOfflineMode(true), env);
      var s2 := if change.Some? then Reduce(s1, AddPendingChange(change.value), env) else s1;
      Reduce(s2, SetError(Some(NETWORK_LOST)), env)
    else Reduce(live, SetError(Some(message)), env)
  }

  /** Store the server's copy on success, otherwise handle the failure. */
  function Settled(live: ContactState, outcome: Outcome<Contact>, change: Option<PendingChange>, env: Env): ContactState {
    match outcome
    case Ok(c) => Reduce(live, UpdateContact(WithSynced(c, true)), env)
    case Err(m) => Failed(live, m, change, env)
  }

  /** The offline branch: queue the change and apply it locally. `snapshot` is
      the state the call started from, `live` the state so far. */
  function OfflineStep(snapshot: ContactState, live: ContactState, a: Action, env: Env): (r: ContactState)
  {
    match a
    case AddContact(c) =>
      Reduce(Reduce(live, AddPendingChange(PendingChange(Create, c.id, Some(c), env.now)), env), a, env)
    case UpdateContact(c) =>
      Reduce(Reduce(live, AddPendingChange(PendingChange(Update, c.id, Some(c), env.now)), env), a, env)
    case DeleteContact(id) =>
      Reduce(Reduce(live, AddPendingChange(PendingChange(Delete, id, None, env.now)), env), a, env)
    case AddCommunication(contactId, _, _, _) =>
      var s1 := Reduce(live, a, env);
      var found := FindContact(snapshot.contacts, contactId);
      if found.Some? then Reduce(s1, AddPendingChange(PendingChange(Update, found.value.id, found, env.now)), env)
      else s1
    case _ => Reduce(live, a, env)
  }

  /** The online branch, sending its first request as the k-th. */
  function OnlineStep(snapshot: ContactState, live: ContactState, a: Action, remote: Remote, k: nat, env: Env): (e: Effect)
    ensures |e.requests| <= 2
    ensures !(a.AddContact? || a.UpdateContact? || a.DeleteContact? || a.AddCommunication?) ==> e.requests == []
  {
    match a
    case AddContact(c) =>
      var call := ApiCall(remote, k, CreateReq(c));
      Effect(Settled(Reduce(live, AddContact(c), env), call.outcome,
                     Some(PendingChange(Create, c.id, Some(c), env.now)), env), call.sent)
    case UpdateContact(c) =>
      if c.id == "" then Effect(Reduce(live, SetError(Some(MISSING_ID)), env), [])
      else
        var call := ApiCall(remote, k, UpdateReq(c.id, c));
        Effect(Settled(Reduce(live, UpdateContact(c), env), call.outcome,
                       Some(PendingChange(Update, c.id, Some(c), env.now)), env), call.sent)
    case DeleteContact(id) =>
      var s1 := Reduce(live, DeleteContact(id), env);
      var call := ApiCall(remote, k, DeleteReq(id));
      Effect(if call.outcome.Ok? then s1 else Failed(s1, call.outcome.message, Some(PendingChange(Delete, id, None, env.now)), env),
             call.sent)
    case AddCommunication(contactId, types, notes, _) =>
      var found := FindContact(snapshot.contacts, contactId);
      var change := if found.Some? then Some(PendingChange(Update, found.value.id, found, env.now)) else None;
      OnlineCommunication(Reduce(live, AddCommunication(contactId, types, notes, None), env), change,
                          AddCommReq(contactId, types, notes), remote, k, env)
    case _ => Effect(Reduce(live, a, env), [])
  }

  /** The online ADD_COMMUNICATION branch after the local entry was logged
      (`s1`): post the communication, then fetch the contact back. */
  function OnlineCommunication(s1: ContactState, change: Option<PendingChange>, post: Request,
                               remote: Remote, k: nat, env: Env): (e: Effect)
    requires post.AddCommReq?
  {
    var posted := ApiCall(remote, k, post);
    if posted.outcome.Err? then Effect(Failed(s1, posted.outcome.message, change, env), posted.sent)
    else
      var fetch := ApiCall(remote, k + |posted.sent|, FetchOneReq(post.contactId));
      Effect(Settled(s1, fetch.outcome, change, env), posted.sent + fetch.sent)
  }

  /** A communication the helper's checks refuse sends nothing; otherwise the
      post is the first request, and at most the refresh follows. */
  lemma OnlineCommunicationRequests(s1: ContactState, change: Option<PendingChange>, post: Request,
                                    remote: Remote, k: nat, env: Env)
    requires post.AddCommReq?
    ensures var e := OnlineCommunication(s1, change, post, remote, k, env);
      && (Guard(post).Some? ==> e.requests == [])
      && (Guard(post).None? ==> 1 <= |e.requests| <= 2 && e.requests[0] == post)
  {
  }

  /** `enhancedDispatch(a)` from state `s`, its first request sent as the k-th. */
  function Dispatched(s: ContactState, a: Action, remote: Remote, k: nat, env: Env): (e: Effect)
    ensures s.offlineMode ==> e.requests == []
    ensures |e.requests| <= 2
  {
    var s0 := if TogglesLoading(a) then Reduce(s, SetLoading(true), env) else s;
    var e := if s.offlineMode then Effect(Reduce(OfflineStep(s, s0, a, env), SetLoading(false), env), [])
             else OnlineStep(s, s0, a, remote, k, env);
    Effect(if TogglesLoading(a) then Reduce(e.state, SetLoading(false), env) else e.state, e.requests)
  }

  // ---------------------------------------------------------------------------
  // syncWithServer, as a function of the state it was called with

  /** `contacts.filter(c => c._synced === false)` */
  function Unsynced(contacts: seq<Contact>): (r: seq<Contact>)
  {
    if contacts == [] then []
    else if contacts[0].synced == Some(false) then [contacts[0]] + Unsynced(contacts[1..])
    else Unsynced(contacts[1..])
  }

  /** The copy sent to the server, without `_synced` and `_deleted`. */
  function Clean(c: Contact): Contact {
    c.(synced := None, deleted := None)
  }

  /** `Failed to process contact ${id || "unknown"}: ${message}` */
  function ProcessFailure(id: string, message: string): string {
    "Failed to process contact " + OrElse(Some(id), "unknown") + ": " + message
  }

  datatype Retry = Retry(ok: bool, message: string, sent: seq<Request>)

  /** `r`, preceded by the requests `sent` before it. */
  function Continued(sent: seq<Request>, r: Retry): Retry {
    Retry(r.ok, r.message, sent + r.sent)
  }

  /** The delete retry loop, from attempt number `attempts` on (up to 3 in all),
      its first request sent as the k-th. */
  function DeleteRetry(remote: Remote, k: nat, id: string, attempts: nat): Retry
    requires attempts < 3
    decreases 3 - attempts
  {
    var call := ApiCall(remote, k, DeleteReq(id));
    if call.outcome.Ok? then Retry(true, "", call.sent)
    else if attempts + 1 == 3 then Retry(false, call.outcome.message, call.sent)
    else
      var rest := DeleteRetry(remote, k + |call.sent|, id, attempts + 1);
      Retry(rest.ok, rest.message, call.sent + rest.sent)
  }

  lemma ContinuedTwice(a: seq<Request>, b: seq<Request>, r: Retry)
    ensures Continued(a, Continued(b, r)) == Continued(a + b, r)
  {
    assert a + (b + r.sent) == (a + b) + r.sent;
  }

  lemma DeleteRetryUnfold(remote: Remote, k: nat, id: string, attempts: nat)
    requires attempts < 3
    ensures var call := ApiCall(remote, k, DeleteReq(id));
      DeleteRetry(remote, k, id, attempts) ==
        if call.outcome.Ok? then Retry(true, "", call.sent)
        else if attempts + 1 == 3 then Retry(false, call.outcome.message, call.sent)
        else Continued(call.sent, DeleteRetry(remote, k + |call.sent|, id, attempts + 1))
  {
  }

  /** After `sent`, the retry loop still has attempts `attempts..2` to make. */
  ghost predicate RetryPending(remote: Remote, k0: nat, id: string, sent: seq<Request>, attempts: nat) {
    attempts < 3 && Continued(sent, DeleteRetry(remote, k0 + |sent|, id, attempts)) == DeleteRetry(remote, k0, id, 0)
  }

  /** The retry loop ended after `sent` with verdict `ok` and last error `message`. */
  ghost predicate RetryDone(remote: Remote, k0: nat, id: string, sent: seq<Request>, ok: bool, message: string) {
    var r := DeleteRetry(remote, k0, id, 0);
    ok == r.ok && (!ok ==> message == r.message) && sent == r.sent
  }

  lemma RetrySucceeded(remote: Remote, k0: nat, id: string, sent: seq<Request>, message: string)
    requires RetryDone(remote, k0, id, sent, true, "")
    ensures RetryDone(remote, k0, id, sent, true, message)
  {
  }

  /** One more attempt of the retry loop, seen from its start. */
  lemma RetryAdvance(remote: Remote, k0: nat, id: string, sent: seq<Request>, attempts: nat)
    requires RetryPending(remote, k0, id, sent, attempts)
    ensures var call := ApiCall(remote, k0 + |sent|, DeleteReq(id));
      var sent' := sent + call.sent;
      && (call.outcome.Ok? ==> RetryDone(remote, k0, id, sent', true, ""))
      && (call.outcome.Err? && attempts + 1 == 3 ==> RetryDone(remote, k0, id, sent', false, call.outcome.message))
      && (call.outcome.Err? && attempts + 1 < 3 ==> RetryPending(remote, k0, id, sent', attempts + 1))
  {
    var call := ApiCall(remote, k0 + |sent|, DeleteReq(id));
    DeleteRetryUnfold(remote, k0 + |sent|, id, attempts);
    if call.outcome.Err? && attempts + 1 < 3 {
      ContinuedTwice(sent, call.sent, DeleteRetry(remote, k0 + |sent| + |call.sent|, id, attempts + 1));
    }
  }

  /** The progress of the sync loop: the live state, the requests sent so far
      and the two counters. */
  datatype Pass = Pass(live: ContactState, sent: seq<Request>, success: nat, failure: nat)

  function Succeed(p: Pass, a: Action, sent: seq<Request>, env: Env): Pass {
    Pass(Reduce(p.live, a, env), p.sent + sent, p.success + 1, p.failure)
  }

  function Fail(p: Pass, id: string, message: string, sent: seq<Request>, env: Env): Pass {
    Pass(Reduce(p.live, SetError(Some(ProcessFailure(id, message))), env), p.sent + sent, p.success, p.failure + 1)
  }

  /** One iteration of the sync loop for contact `c`; `k0` is the number of
      requests sent before the sync began. */
  function SyncStep(snapshot: ContactState, probe: bool, remote: Remote, k0: nat, env: Env, p: Pass, c: Contact): (r: Pass)
  {
    if c.deleted == Some(true) then TombstoneStep(snapshot, probe, remote, k0 + |p.sent|, env, p, c)
    else if !probe then p
    else UpsertStep(snapshot, remote, k0 + |p.sent|, env, p, c)
  }

  /** The iteration for a tombstone, whose delete is the `k`-th request. */
  function TombstoneStep(snapshot: ContactState, probe: bool, remote: Remote, k: nat, env: Env, p: Pass, c: Contact): (r: Pass)
    ensures r.success + r.failure == p.success + p.failure + 1
  {
    if c.id == "" then Fail(p, c.id, MISSING_DELETE_ID, [], env)
    else if (snapshot.offlineMode || !probe) && c.synced != Some(true) then
      Succeed(p, RemovePendingChange(c.id), [], env)
    else
      var r := DeleteRetry(remote, k, c.id, 0);
      if r.ok then Succeed(p, RemovePendingChange(c.id), r.sent, env)
      else Fail(p, c.id, r.message, r.sent, env)
  }

  /** The iteration that creates or updates `c` on the server as the `k`-th request. */
  function UpsertStep(snapshot: ContactState, remote: Remote, k: nat, env: Env, p: Pass, c: Contact): (r: Pass)
    ensures r.success + r.failure == p.success + p.failure + 1
  {
    var req := if FindChangeIndex(snapshot.pendingChanges, c.id, Create) >= 0
               then CreateReq(Clean(c)) else UpdateReq(c.id, Clean(c));
    var call := ApiCall(remote, k, req);
    match call.outcome
    case Ok(server) => Succeed(p, UpdateContact(WithSynced(server, true)), call.sent, env)
    case Err(m) => Fail(p, c.id, m, call.sent, env)
  }

  /** The sync loop over `items`, in order. */
  function SyncLoop(snapshot: ContactState, probe: bool, remote: Remote, k0: nat, env: Env, p: Pass, items: seq<Contact>): (r: Pass)
    decreases |items|
  {
    if items == [] then p
    else SyncLoop(snapshot, probe, remote, k0, env, SyncStep(snapshot, probe, remote, k0, env, p, items[0]), items[1..])
  }

  /** The loop as it runs in `syncWithServer` from state `s`. */
  function SyncPass(s: ContactState, probe: bool, remote: Remote, k0: nat, env: Env): (r: Pass)
  {
    SyncLoop(s, probe, remote, k0, env, Pass(Reduce(s, SetSyncing(true), env), [], 0, 0), Unsynced(s.contacts))
  }

  /** What follows the loop, inside the `try`. */
  function AfterLoop(p: Pass, probe: bool, remote: Remote, k0: nat, env: Env): Effect {
    if p.failure == 0 && p.success > 0 then
      var s2 := Reduce(Reduce(p.live, SetOfflineMode(false), env), ClearPendingChanges, env);
      if probe then
        match FetchAll(remote, k0 + |p.sent|)
        case Ok(cs) => Effect(Reduce(s2, SetContacts(cs), env), p.sent + [FetchAllReq])
        case Err(_) => Effect(Reduce(s2, SetError(Some(REFRESH_FAILED)), env), p.sent + [FetchAllReq])
      else Effect(s2, p.sent)
    else Effect(p.live, p.sent)
  }

  /** `syncWithServer()` from state `s` when the probe answers `probe`. */
  function Synced(s: ContactState, probe: bool, remote: Remote, k0: nat, env: Env): (e: Effect)
    ensures !probe && !s.offlineMode ==> e.requests == [] && e.state.error == Some(SERVER_UNAVAILABLE)
    ensures probe || s.offlineMode ==> !e.state.syncing
  {
    if !probe && !s.offlineMode then Effect(Reduce(s, SetError(Some(SERVER_UNAVAILABLE)), env), [])
    else
      var e := AfterLoop(SyncPass(s, probe, remote, k0, env), probe, remote, k0, env);
      Effect(Reduce(e.state, SetSyncing(false), env), e.requests)
  }

  // ---------------------------------------------------------------------------
  // The provider

  class ContactProvider {
    /** The `useReducer` state. */
    var state: ContactState
    /** Every request sent to the server, in order. */
    var requests: seq<Request>

    constructor ()
      ensures state == INITIAL_STATE && requests == []
    {
      state := INITIAL_STATE;
      requests := [];
    }

    /** The reducer's `dispatch`. */
    method Dispatch(a: Action, env: Env)
      modifies this
      ensures state == Reduce(old(state), a, env)
      ensures requests == old(requests)
    {
      state := Reduce(state, a, env);
    }

    /** Sends one request through its API helper. */
    method Send(req: Request, remote: Remote) returns (r: Outcome<Contact>)
      modifies this
      ensures var call := ApiCall(remote, |old(requests)|, req);
        r == call.outcome && requests == old(requests) + call.sent
      ensures state == old(state)
    {
      var call := ApiCall(remote, |requests|, req);
      requests := requests + call.sent;
      r := call.outcome;
    }

    /** The mount effect: an unreachable server switches to offline mode. */
    method CheckOnMount(available: bool, env: Env)
      modifies this
      ensures available ==> state == old(state)
      ensures !available ==> state == old(state).(offlineMode := true, error := Some(UNREACHABLE_ON_MOUNT))
      ensures requests == old(requests)
    {
      if !available {
        Dispatch(SetOfflineMode(true), env);
        Dispatch(SetError(Some(UNREACHABLE_ON_MOUNT)), env);
      }
    }

    /** One tick of the 30-second probe while offline: it only reports. */
    method ConnectionTick(available: bool, env: Env)
      modifies this
      ensures state.offlineMode == old(state).offlineMode
      ensures available && old(state).offlineMode ==> state == old(state).(error := Some(CONNECTION_RESTORED))
      ensures !(available && old(state).offlineMode) ==> state == old(state)
      ensures requests == old(requests)
    {
      if available && state.offlineMode {
        Dispatch(SetError(Some(CONNECTION_RESTORED)), env);
      }
    }

    method ReportFailure(message: string, change: Option<PendingChange>, env: Env)
      modifies this
      ensures state == Failed(old(state), message, change, env)
      ensures requests == old(requests)
    {
      if IsConnectivityError(message) {
        Dispatch(SetOfflineMode(true), env);
        if change.Some? {
          Dispatch(AddPendingChange(change.value), env);
        }
        Dispatch(SetError(Some(NETWORK_LOST)), env);
      } else {
        Dispatch(SetError(Some(message)), env);
      }
    }

    method Settle(outcome: Outcome<Contact>, change: Option<PendingChange>, env: Env)
      modifies this
      ensures state == Settled(old(state), outcome, change, env)
      ensures requests == old(requests)
    {
      match outcome
      case Ok(c) => Dispatch(UpdateContact(WithSynced(c, true)), env);
      case Err(m) => ReportFailure(m, change, env);
    }

    /** The offline branch of `enhancedDispatch`, up to its SET_LOADING false. */
    method DispatchOffline(snapshot: ContactState, a: Action, env: Env)
      modifies this
      ensures state == OfflineStep(snapshot, old(state), a, env)
      ensures requests == old(requests)
    {
      match a {
        case AddContact(c) =>
          Dispatch(AddPendingChange(PendingChange(Create, c.id, Some(c), env.now)), env);
          Dispatch(a, env);
        case UpdateContact(c) =>
          Dispatch(AddPendingChange(PendingChange(Update, c.id, Some(c), env.now)), env);
          Dispatch(a, env);
        case DeleteContact(id) =>
          Dispatch(AddPendingChange(PendingChange(Delete, id, None, env.now)), env);
          Dispatch(a, env);
        case AddCommunication(contactId, _, _, _) =>
          Dispatch(a, env);
          var found := FindContact(snapshot.contacts, contactId);
          if found.Some? {
            Dispatch(AddPendingChange(PendingChange(Update, found.value.id, found, env.now)), env);
          }
        case _ =>
          Dispatch(a, env);
      }
    }

    /** The online ADD_COMMUNICATION: log locally, post, then refresh the contact. */
    method DispatchOnlineCommunication(contactId: string, types: seq<CommunicationType>, notes: string,
                                       change: Option<PendingChange>, remote: Remote, env: Env)
      modifies this
      ensures var e := OnlineCommunication(Reduce(old(state), AddCommunication(contactId, types, notes, None), env), change,
                                           AddCommReq(contactId, types, notes), remote, |old(requests)|, env);
        state == e.state && requests == old(requests) + e.requests
    {
      ghost var k := |requests|;
      var post := AddCommReq(contactId, types, notes);
      Dispatch(AddCommunication(contactId, types, notes, None), env);
      ghost var s1 := state;
      var posted := Send(post, remote);
      ghost var call := ApiCall(remote, k, post);
      if posted.Err? {
        ReportFailure(posted.message, change, env);
        assert OnlineCommunication(s1, change, post, remote, k, env) == Effect(state, call.sent);
      } else {
        var refreshed := Send(FetchOneReq(contactId), remote);
        ghost var fetch := ApiCall(remote, k + |call.sent|, FetchOneReq(contactId));
        Settle(refreshed, change, env);
        assert OnlineCommunication(s1, change, post, remote, k, env) == Effect(state, call.sent + fetch.sent);
      }
    }

    /** The online branch of `enhancedDispatch`, inside its `try`. */
    method DispatchOnline(snapshot: ContactState, a: Action, remote: Remote, env: Env)
      modifies this
      ensures var e := OnlineStep(snapshot, old(state), a, remote, |old(requests)|, env);
        state == e.state && requests == old(requests) + e.requests
    {
      match a {
        case AddContact(c) =>
          Dispatch(AddContact(c), env);
          var r := Send(CreateReq(c), remote);
          Settle(r, Some(PendingChange(Create, c.id, Some(c), env.now)), env);
        case UpdateContact(c) =>
          if c.id == "" {
            Dispatch(SetError(Some(MISSING_ID)), env);
          } else {
            Dispatch(UpdateContact(c), env);
            var r := Send(UpdateReq(c.id, c), remote);
            Settle(r, Some(PendingChange(Update, c.id, Some(c), env.now)), env);
          }
        case DeleteContact(id) =>
          Dispatch(DeleteContact(id), env);
          var r := Send(DeleteReq(id), remote);
          if r.Err? {
            ReportFailure(r.message, Some(PendingChange(Delete, id, None, env.now)), env);
          }
        case AddCommunication(contactId, types, notes, _) =>
          var found := FindContact(snapshot.contacts, contactId);
          var change := if found.Some? then Some(PendingChange(Update, found.value.id, found, env.now)) else None;
          DispatchOnlineCommunication(contactId, types, notes, change, remote, env);
        case _ =>
          Dispatch(a, env);
      }
    }

    /** `enhancedDispatch` */
    method EnhancedDispatch(a: Action, remote: Remote, env: Env)
      modifies this
      ensures var e := Dispatched(old(state), a, remote, |old(requests)|, env);
        state == e.state && requests == old(requests) + e.requests
    {
      var snapshot := state;
      if TogglesLoading(a) {
        Dispatch(SetLoading(true), env);
      }
      if snapshot.offlineMode {
        DispatchOffline(snapshot, a, env);
        Dispatch(SetLoading(false), env);
      } else {
        DispatchOnline(snapshot, a, remote, env);
      }
      if TogglesLoading(a) {
        Dispatch(SetLoading(false), env);
      }
    }

    /** One attempt of the delete retry loop. */
    method DeleteAttempt(id: string, remote: Remote, ghost base: seq<Request>, ghost sent: seq<Request>, attempts: nat)
      returns (r: Outcome<Contact>, ghost sent': seq<Request>)
      requires RetryPending(remote, |base|, id, sent, attempts)
      requires requests == base + sent
      modifies this
      ensures requests == base + sent'
      ensures state == old(state)
      ensures r.Ok? ==> RetryDone(remote, |base|, id, sent', true, "")
      ensures r.Err? && attempts + 1 == 3 ==> RetryDone(remote, |base|, id, sent', false, r.message)
      ensures r.Err? && attempts + 1 < 3 ==> RetryPending(remote, |base|, id, sent', attempts + 1)
    {
      ghost var call := ApiCall(remote, |base| + |sent|, DeleteReq(id));
      RetryAdvance(remote, |base|, id, sent, attempts);
      r := Send(DeleteReq(id), remote);
      sent' := sent + call.sent;
      assert requests == base + sent';
    }

    /** The `while (attempts < maxAttempts)` delete loop of the sync; the
        message is the error of the last attempt when all three failed. */
    method DeleteWithRetry(id: string, remote: Remote) returns (ok: bool, message: string)
      modifies this
      ensures var r := DeleteRetry(remote, |old(requests)|, id, 0);
        ok == r.ok && (!ok ==> message == r.message) && requests == old(requests) + r.sent
      ensures state == old(state)
    {
      ghost var k0 := |requests|;
      ghost var sent: seq<Request> := [];
      var attempts := 0;
      ok, message := false, "";
      while !ok && attempts < 3
        invariant 0 <= attempts <= 3
        invariant requests == old(requests) + sent
        invariant state == old(state)
        invariant !ok && attempts < 3 ==> RetryPending(remote, k0, id, sent, attempts)
        invariant ok || attempts == 3 ==> RetryDone(remote, k0, id, sent, ok, message)
        decreases 3 - attempts, if ok then 0 else 1
      {
        var r;
        r, sent := DeleteAttempt(id, remote, old(requests), sent, attempts);
        if r.Ok? {
          RetrySucceeded(remote, k0, id, sent, message);
          ok := true;
        } else {
          attempts := attempts + 1;
          message := r.message;
        }
      }
    }

    /** One iteration of the sync loop, for contact `c`, with the counters so far. */
    method SyncContact(snapshot: ContactState, probeOk: bool, remote: Remote, k0: nat, env: Env,
                       c: Contact, success: nat, failure: nat)
      returns (success': nat, failure': nat)
      requires k0 <= |requests|
      modifies this
      ensures |old(requests)| <= |requests| && requests[..|old(requests)|] == old(requests)
      ensures Pass(state, requests[k0..], success', failure') ==
              SyncStep(snapshot, probeOk, remote, k0, env, Pass(old(state), old(requests)[k0..], success, failure), c)
    {
      success', failure' := success, failure;
      if c.deleted == Some(true) {
        success', failure' := SyncTombstone(snapshot, probeOk, remote, k0, env, c, success, failure);
      } else if probeOk {
        success', failure' := SyncUpsert(snapshot, remote, k0, env, c, success, failure);
      }
    }

    /** The iteration for a tombstone: drop it, or delete it on the server. */
    method SyncTombstone(snapshot: ContactState, probeOk: bool, remote: Remote, k0: nat, env: Env,
                         c: Contact, success: nat, failure: nat)
      returns (success': nat, failure': nat)
      requires k0 <= |requests|
      modifies this
      ensures |old(requests)| <= |requests| && requests[..|old(requests)|] == old(requests)
      ensures Pass(state, requests[k0..], success', failure') ==
              TombstoneStep(snapshot, probeOk, remote, |old(requests)|, env,
                            Pass(old(state), old(requests)[k0..], success, failure), c)
    {
      ghost var before := requests;
      success', failure' := success, failure;
      if c.id == "" {
        failure' := failure + 1;
        Dispatch(SetError(Some(ProcessFailure(c.id, MISSING_DELETE_ID))), env);
      } else if (snapshot.offlineMode || !probeOk) && c.synced != Some(true) {
        Dispatch(RemovePendingChange(c.id), env);
        success' := success + 1;
      } else {
        var ok, message := DeleteWithRetry(c.id, remote);
        if ok {
          Dispatch(RemovePendingChange(c.id), env);
          success' := success + 1;
        } else {
          failure' := failure + 1;
          Dispatch(SetError(Some(ProcessFailure(c.id, message))), env);
        }
      }
      assert requests[k0..] == before[k0..] + requests[|before|..];
    }

    /** The iteration that creates or updates `c` on the server. */
    method SyncUpsert(snapshot: ContactState, remote: Remote, k0: nat, env: Env,
                      c: Contact, success: nat, failure: nat)
      returns (success': nat, failure': nat)
      requires k0 <= |requests|
      modifies this
      ensures |old(requests)| <= |requests| && requests[..|old(requests)|] == old(requests)
      ensures Pass(state, requests[k0..], success', failure') ==
              UpsertStep(snapshot, remote, |old(requests)|, env, Pass(old(state), old(requests)[k0..], success, failure), c)
    {
      ghost var before := requests;
      success', failure' := success, failure;
      var req := if FindChangeIndex(snapshot.pendingChanges, c.id, Create) >= 0
                 then CreateReq(Clean(c)) else UpdateReq(c.id, Clean(c));
      var r := Send(req, remote);
      match r {
        case Ok(server) =>
          Dispatch(UpdateContact(WithSynced(server, true)), env);
          success' := success + 1;
        case Err(m) =>
          failure' := failure + 1;
          Dispatch(SetError(Some(ProcessFailure(c.id, m))), env);
      }
      assert requests[k0..] == before[k0..] + requests[|before|..];
    }

    /** What follows the loop: the outcome rules and the refresh. */
    method FinishSync(probeOk: bool, remote: Remote, k0: nat, env: Env, success: nat, failure: nat)
      requires k0 <= |requests|
      modifies this
      ensures var e := AfterLoop(Pass(old(state), old(requests)[k0..], success, failure), probeOk, remote, k0, env);
        state == e.state && |requests| >= k0 && requests[..k0] == old(requests)[..k0] && requests[k0..] == e.requests
    {
      ghost var before := requests;
      if failure == 0 && success > 0 {
        Dispatch(SetOfflineMode(false), env);
        Dispatch(ClearPendingChanges, env);
        if probeOk {
          var listing := FetchAll(remote, |requests|);
          requests := requests + [FetchAllReq];
          assert requests[k0..] == before[k0..] + [FetchAllReq];
          match listing {
            case Ok(cs) => Dispatch(SetContacts(cs), env);
            case Err(_) => Dispatch(SetError(Some(REFRESH_FAILED)), env);
          }
        }
      }
    }

    /** `syncWithServer`, the probe having answered `probeOk`. */
    method SyncWithServer(probeOk: bool, remote: Remote, env: Env)
      modifies this
      ensures var e := Synced(old(state), probeOk, remote, |old(requests)|, env);
        state == e.state && requests == old(requests) + e.requests
    {
      var snapshot := state;
      var k0 := |requests|;
      if !probeOk && !snapshot.offlineMode {
        Dispatch(SetError(Some(SERVER_UNAVAILABLE)), env);
        return;
      }
      Dispatch(SetSyncing(true), env);
      var unsynced := Unsynced(snapshot.contacts);
      ghost var whole := SyncPass(snapshot, probeOk, remote, k0, env);
      var success, failure := 0, 0;
      var i := 0;
      while i < |unsynced|
        invariant 0 <= i <= |unsynced|
        invariant |requests| >= k0 && requests[..k0] == old(requests)
        invariant SyncLoop(snapshot, probeOk, remote, k0, env, Pass(state, requests[k0..], success, failure), unsynced[i..]) == whole
      {
        ghost var before := requests;
        success, failure := SyncContact(snapshot, probeOk, remote, k0, env, unsynced[i], success, failure);
        assert requests[..k0] == before[..k0];
        assert unsynced[i..][1..] == unsynced[i + 1..];
        i := i + 1;
      }
      assert Pass(state, requests[k0..], success, failure) == whole;
      ghost var beforeFinish := requests;
      FinishSync(probeOk, remote, k0, env, success, failure);
      assert requests == old(requests) + requests[k0..];
      Dispatch(SetSyncing(false), env);
    }
  }
}
