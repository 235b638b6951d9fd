# contacts-manager, modelled in Dafny

This project models the core of a personal contact manager. It has two
halves:

- **The client-side store.** A reducer holds the contact list, the selected
  contact, the offline flag and a queue of pending changes. A provider wraps
  every save in server calls, with an offline fallback and a sync pass that
  replays unsynced contacts.
- **The logic around it.** This covers the two `Contact` shapes and the
  adapters between them, the Airtable record mapping, and the presentation
  logic of the components. That logic covers:
  - filtering, paging and statistics;
  - overdue-contact notifications;
  - the initials, address and kids text shown on the details card;
  - the age and birthday field;
  - the communication form.

Each source file becomes one module. The flavour of each file is kept:

- **Values become values.** Pure transformations are functions: adapters,
  the reducer, formatting, filtering, mapping.
- **State becomes classes.** A component or provider that updates state
  becomes a `class` whose fields are that state:
  - `ContactProvider.ContactProvider` holds the `useReducer` state and the log
    of server requests;
  - `ContactFilters.ContactFiltersView`, `ContactList.ContactListView`,
    `CheckNotifications.CheckNotificationsView`,
    `BirthdayField.BirthdayFieldView` and
    `CommunicationForm.CommunicationFormView` hold the `useState` slots of
    their components.
- **Methods are proved against specification functions.** Each method's
  `ensures` ties the new state to a specification function of the old state:
  - `Dispatched` for `enhancedDispatch`;
  - `Synced` for `syncWithServer`;
  - `Notifications`, `PageOf`, `With` and `Toggle` for the views.

  The promised properties are then proved as lemmas about those functions.

Inputs the program takes from its environment become parameters:

- **The server** is a `Remote` value that gives the reply to the k-th request.
  Any sequence of replies can be expressed, and every request sent is logged.
- **The clock and generated ids** come in as an `Env` (`now` and `uuid`), or as
  a `uuids` function where several ids are drawn.
- **The probe result** of `checkApiAvailability` is a boolean.

Dates are integer milliseconds. The birthday field uses calendar dates,
because its arithmetic is about years, months and days.

### Behaviour worth knowing

Each point below follows from the code as written. All but the last are
proved as lemmas about the model; the last is a fact about the repository's
call sites, so it is only recorded here.

- **Sync forgets every offline delete** (`SyncOfflineSendsNoDelete`).
  - `syncWithServer` selects only contacts with `_synced === false`. Every
    tombstone is flagged that way.
  - While offline mode is on, the delete branch always takes the "forget
    locally" path, so no DELETE request ever reaches the server.
  - Once the refresh succeeds, the server listing brings the deleted contacts
    back (`SyncOfflineRestoresDeleted`).
- **Sync stores server copies as unsynced** (`SyncStoresServerCopyAsUnsynced`).
  The `UPDATE_CONTACT` that stores the server's copy runs while `offlineMode`
  is still true. The reducer therefore stores it with `_synced: false`.
- **A create lost to a network failure looks synced**
  (`LostCreateStaysFlaggedSynced`). The local copy was stored while online, so
  it keeps `_synced: true`. The sync pass never selects it; only the queued
  pending change remembers it.
- **A delete lost to a network failure leaves no tombstone**
  (`LostDeleteLeavesNoTombstone`). The record was already removed locally, so
  nothing marks it for the sync pass.
- **An online communication loses its date** (`OnlineCommunicationDropsDate`).
  The online `ADD_COMMUNICATION` path dispatches locally without the chosen
  `date`, so the current time is recorded instead.
- **A failed refresh after a communication goes offline**
  (`FetchOneFailureLooksLikeConnectivity`, `RefreshFailureGoesOffline`). The
  refresh that follows a communication wraps its errors as
  "Failed to fetch contact: …". Any failure of that refresh is therefore
  classified as a lost connection.
- **`contextToTypesContact` loses the last-contacted date**
  (`TypeAdapters.ContextToTypesContact`, `ContactRoundTrip`). It always
  produces `lastContactedAt: null`.
- **The list's fallback to communications is dead** (`ConvertedFallbackIsDead`).
  `convertToTypeContact` empties `communications`, so the list and the
  notifications never fall back to them: the last-contacted date shown is
  exactly the stored `lastContactedAt`.
- **Toggling a selected type off and on moves it to the end of the list**
  (`ToggleTwiceRestoresAbsent`, `ToggleTwiceMovesPresent`). `handleTypeToggle` removes
  a selected type with `filter` and appends an unselected one, so toggling an
  unselected type twice gives back the same list, and toggling a selected one
  twice puts it last.
- **The `date` filter does not filter the list**
  (`ContactManagement.DateFilterIgnored`, `ContactManagement.DateFilterKeepsList`).
  The filters state holds a `date` entry, but the filtering predicate does
  not read it, so setting it leaves the filtered list as it was.
- **`calculateAge` is never called** in the repository. It is modelled
  nonetheless (`BirthdayField.BirthdayFieldView.CalculateAge`); that nothing
  calls it is not a property of the model and is not proved.

## Model

| member | source | states |
|---|---|---|
| ContactReducer.Reduce | context/contact-context.tsx:308-443 | `contactReducer`, one transition per action; the lemmas below state what each transition does |
| ContactReducer.ReduceFrame | context/contact-context.tsx:308-443 | only the contact actions change the contacts, only the queue actions change the queue, only SET_OFFLINE_MODE changes the mode (LOAD_DATA replaces everything) |
| ContactReducer.Coalesce | context/contact-context.tsx:410-426 | the queue after ADD_PENDING_CHANGE: the first change with the same id and kind is overwritten, else the change is appended (stated by `AddPendingChangeCoalesces`) |
| ContactReducer.RemoveChanges | context/contact-context.tsx:428-432 | the queue without the changes of one id (stated by `RemoveChangesMembers`) |
| ContactReducer.FindContact | context/contact-context.tsx:351-357 | `find` by id: None exactly when no contact has the id, otherwise the first contact carrying it |
| ContactReducer.FindChangeIndex | context/contact-context.tsx:410-426 | `findIndex` over the queue: -1 exactly when no change has that id and kind, otherwise the first such index |
| ContactReducer.AddContactAppends | context/contact-context.tsx:313-317 | ADD_CONTACT appends the contact flagged `_synced = !offlineMode`, keeps the earlier contacts and changes nothing else |
| ContactReducer.AddContactUniqueIds | context/contact-context.tsx:313-317 | with unique ids before, ids stay unique after ADD_CONTACT exactly when the new id was not present |
| ContactReducer.UpdateContactReplaces | context/contact-context.tsx:319-329 | UPDATE_CONTACT replaces every contact with the id (flagged `_synced = !offlineMode`), leaves the others, is a no-op for an unknown id, and touches the selection only when it has that id |
| ContactReducer.UpdateContactUniqueIds | context/contact-context.tsx:319-329 | UPDATE_CONTACT keeps ids unique |
| ContactReducer.RemoveByIdMembers | context/contact-context.tsx:340-345 | the filter keeps exactly the contacts whose id differs |
| ContactReducer.RemoveByIdConcat | context/contact-context.tsx:340-345 | removing by id distributes over concatenation, so the order of the rest is kept |
| ContactReducer.RemoveByIdUnique | context/contact-context.tsx:340-345 | removing by id keeps ids unique |
| ContactReducer.RemoveByIdNoMatch | context/contact-context.tsx:340-345 | removing an absent id changes nothing |
| ContactReducer.DeleteOfflineTombstones | context/contact-context.tsx:331-339 | offline, DELETE_CONTACT keeps the length and marks the matching contacts `_deleted`/unsynced, leaves the others, and clears the selection only when it was that contact |
| ContactReducer.DeleteOnlineRemoves | context/contact-context.tsx:331-349 | online, DELETE_CONTACT removes exactly the contacts with the id, keeps the order, clears a matching selection and preserves unique ids |
| ContactReducer.SelectContactFinds | context/contact-context.tsx:351-357 | SELECT_CONTACT selects a contact exactly when one has the id, and it is that contact |
| ContactReducer.AddCommunicationPrepends | context/contact-context.tsx:359-393 | ADD_COMMUNICATION prepends the new entry (date or now) to the matching contact, sets its `lastContactedAt` and sync flag, leaves its other fields and all other contacts unchanged |
| ContactReducer.AddPendingChangeCoalesces | context/contact-context.tsx:410-426 | ADD_PENDING_CHANGE overwrites the first change with the same id and kind, or appends; the change is then in the queue |
| ContactReducer.CoalesceIncludes | context/contact-context.tsx:410-426 | the coalesced queue contains the added change |
| ContactReducer.AddPendingChangeKeepsQueueCoalesced | context/contact-context.tsx:410-426 | at most one queued change per (id, kind) is preserved |
| ContactReducer.RemoveChangesMembers | context/contact-context.tsx:428-432 | the queue keeps exactly the changes of other ids |
| ContactReducer.RemoveAndClearPendingChanges | context/contact-context.tsx:428-435 | REMOVE_PENDING_CHANGE drops exactly that id's changes and leaves the contacts; CLEAR_PENDING_CHANGES empties the queue |
| ContactProvider.IsConnectivityError | context/contact-context.tsx:785 | a failure is a lost connection exactly when its message contains "Failed to fetch" |
| ContactProvider.Guard | context/contact-context.tsx:258-290 | the argument checks of the helpers: a missing id, or an empty type list for a communication, is refused before any request |
| ContactProvider.ErrorPrefix | context/contact-context.tsx:214-302 | the prefix each helper puts before the message of a failed request |
| ContactProvider.ApiCall | context/contact-context.tsx:218-303 | a guarded helper refuses a missing id without calling the server; otherwise one request is sent, a success is passed through and an error is re-thrown with the helper's prefix |
| ContactProvider.FetchAll | context/contact-context.tsx:203-215 | `fetchContacts`: the listing, or its error prefixed with "Failed to fetch contacts: " |
| ContactProvider.Failed | context/contact-context.tsx:781-807 | the `catch` of a save: a lost connection goes offline, queues the change and reports the network message; any other error is only reported (stated by `FailedFacts`) |
| ContactProvider.Settled | context/contact-context.tsx:777-807 | a save's outcome: the server copy stored as synced, or `Failed` |
| ContactProvider.OfflineStep | context/contact-context.tsx:692-765 | the offline branch: a save queues its pending change (kind, id, payload, `now`) and is then applied; a communication is applied and queues the contact as it was (stated by `OfflineQueuesChange`, `OfflineCommunicationQueuesStaleCopy`) |
| ContactProvider.OnlineStep | context/contact-context.tsx:767-946 | the online branch sends at most two requests, and none for an action other than the four saves |
| ContactProvider.OnlineCommunication | context/contact-context.tsx:898-946 | the online ADD_COMMUNICATION branch after the local entry: post, then fetch the contact back and settle (stated by `OnlineCommunicationRequests`, `OnlineCommunicationSettles`, `OnlineCommunicationFails`) |
| ContactProvider.OnlineCommunicationRequests | context/contact-context.tsx:898-946 | a communication refused by the helper's checks sends nothing; otherwise the post is the first request and at most one refresh follows |
| ContactProvider.Dispatched | context/contact-context.tsx:677-968 | `enhancedDispatch`: offline it sends no request, online at most two |
| ContactProvider.Unsynced | context/contact-context.tsx:545 | the contacts the sync selects, in order (stated by `UnsyncedMembers`) |
| ContactProvider.Clean | context/contact-context.tsx:596-598 | the copy sent without `_synced` and `_deleted` |
| ContactProvider.ProcessFailure | context/contact-context.tsx:622 | the message of a failed sync iteration, with "unknown" for a missing id |
| ContactProvider.DeleteRetry | context/contact-context.tsx:570-587 | the delete retry loop: up to three attempts, stopping at the first success (bounds stated by `DeleteRetryBounds`) |
| ContactProvider.ContinuedTwice | context/contact-context.tsx:572-585 | two rounds of retry bookkeeping compose into one |
| ContactProvider.DeleteRetryUnfold | context/contact-context.tsx:572-585 | one delete attempt: success stops, the third failure gives up with its message, otherwise another attempt follows |
| ContactProvider.RetrySucceeded | context/contact-context.tsx:572-585 | a successful retry is finished whatever message is carried |
| ContactProvider.RetryAdvance | context/contact-context.tsx:572-585 | the loop invariant of the retry loop advances by one attempt |
| ContactProvider.SyncStep | context/contact-context.tsx:552-626 | one iteration of the sync loop: a tombstone goes to `TombstoneStep`; otherwise nothing happens without a probe, and `UpsertStep` runs with one |
| ContactProvider.TombstoneStep | context/contact-context.tsx:554-587 | a tombstone adds exactly one to the success or the failure count |
| ContactProvider.UpsertStep | context/contact-context.tsx:588-626 | a create or update adds exactly one to the success or the failure count |
| ContactProvider.SyncLoop | context/contact-context.tsx:552-626 | the loop over the selected contacts in order (its facts stated by `SyncLoopFacts`) |
| ContactProvider.SyncPass | context/contact-context.tsx:541-626 | the loop run from the store with the syncing flag on, over `Unsynced` (stated by `SyncPassFacts`) |
| ContactProvider.AfterLoop | context/contact-context.tsx:628-657 | what follows the loop (stated by `AfterLoopFacts`) |
| ContactProvider.Synced | context/contact-context.tsx:525-674 | `syncWithServer`: online with a failed probe it sends nothing and reports the server unavailable; otherwise the syncing flag ends off |
| ContactProvider.ContactProvider.constructor | context/contact-context.tsx:120-133 | the provider starts from the initial reducer state and no requests |
| ContactProvider.ContactProvider.Dispatch | context/contact-context.tsx:446 | a plain dispatch applies the reducer and sends nothing |
| ContactProvider.ContactProvider.Send | context/contact-context.tsx:203-303 | a server call logs exactly the requests the helper sends and returns its outcome; the state is unchanged |
| ContactProvider.ContactProvider.CheckOnMount | context/contact-context.tsx:451-467 | an unreachable server on mount switches to offline mode with its message; otherwise nothing changes |
| ContactProvider.ContactProvider.ConnectionTick | context/contact-context.tsx:470-498 | the periodic check, when offline and the server answers, only sets the "connection restored" message; offline mode is never left here |
| ContactProvider.ContactProvider.ReportFailure | context/contact-context.tsx:781-807 | a failed call moves the state to `Failed`: a connectivity error goes offline and queues the change, any other error is only reported |
| ContactProvider.ContactProvider.Settle | context/contact-context.tsx:777-807 | a call's outcome moves the state to `Settled`: success stores the server copy as synced, failure goes through `Failed` |
| ContactProvider.ContactProvider.DispatchOffline | context/contact-context.tsx:692-765 | the offline branch equals `OfflineStep`: local reducer step plus queued pending change |
| ContactProvider.ContactProvider.DispatchOnlineCommunication | context/contact-context.tsx:898-946 | the online communication branch equals `OnlineCommunication`: the entry is logged locally, posted, and the contact fetched back, requests included |
| ContactProvider.ContactProvider.DispatchOnline | context/contact-context.tsx:767-946 | the online branch equals `OnlineStep`, requests included |
| ContactProvider.ContactProvider.EnhancedDispatch | context/contact-context.tsx:677-968 | `enhancedDispatch` equals `Dispatched`: loading on and off around saves, offline or online branch, requests logged in order |
| ContactProvider.ContactProvider.DeleteAttempt | context/contact-context.tsx:573-585 | one iteration of the delete retry loop keeps the loop invariant |
| ContactProvider.ContactProvider.DeleteWithRetry | context/contact-context.tsx:570-587 | the retry loop equals `DeleteRetry`: up to three DELETE requests, stopping at the first success |
| ContactProvider.ContactProvider.SyncContact | context/contact-context.tsx:552-626 | one iteration of the sync loop equals `SyncStep` on the snapshot and the live state |
| ContactProvider.ContactProvider.SyncTombstone | context/contact-context.tsx:554-587 | the tombstone iteration equals `TombstoneStep`: a missing id fails, a never-synced tombstone is dropped offline, otherwise the delete is retried |
| ContactProvider.ContactProvider.SyncUpsert | context/contact-context.tsx:596-617 | the create-or-update iteration equals `UpsertStep`: create when a create is queued, update otherwise, server copy stored as synced |
| ContactProvider.ContactProvider.FinishSync | context/contact-context.tsx:628-657 | the outcome step equals `AfterLoop`: all succeeded clears the queue, leaves offline mode and refreshes; otherwise it only reports |
| ContactProvider.ContactProvider.SyncWithServer | context/contact-context.tsx:525-674 | `syncWithServer` equals `Synced`: probe, loop over unsynced contacts, outcome, syncing flag reset |
| ContactProviderLemmas.FetchOneFailureLooksLikeConnectivity | context/contact-context.tsx:218-230 | every failure of `fetchContact` is wrapped as "Failed to fetch contact: …", which reads as a connectivity error |
| ContactProviderLemmas.WrappedConnectivity | context/contact-context.tsx:233-303 | a connectivity error stays one after the helper's prefix |
| ContactProviderLemmas.DispatchLoading | context/contact-context.tsx:679-688 | after a dispatch the loading flag is cleared for save actions and offline, otherwise unchanged |
| ContactProviderLemmas.OfflineQueuesChange | context/contact-context.tsx:692-737 | offline, a save sends nothing, applies locally (append, replace flagged unsynced, tombstone) and queues its pending change |
| ContactProviderLemmas.FailedFacts | context/contact-context.tsx:781-807 | the failure state in full: offline on a connectivity error with the network message and the change queued, else the message only |
| ContactProviderLemmas.FailedFlags | context/contact-context.tsx:781-807 | the offline flag and the error message after a failure |
| ContactProviderLemmas.OnlineFailureClassification | context/contact-context.tsx:769-896 | online saves send the helper's requests; a connectivity error goes offline and queues, another error is only reported, success keeps mode and queue |
| ContactProviderLemmas.UpdateWithoutIdRefused | context/contact-context.tsx:818 | an online update without id sends nothing and reports the missing id |
| ContactProviderLemmas.LostCreateStaysFlaggedSynced | context/contact-context.tsx:769-811 | a create lost to the network keeps a local copy flagged synced, which the sync pass never selects, and a queued Create |
| ContactProviderLemmas.LostDeleteLeavesNoTombstone | context/contact-context.tsx:861-896 | a delete lost to the network queues a Delete but leaves no contact, hence no tombstone, with that id |
| ContactProviderLemmas.OfflineCommunicationQueuesStaleCopy | context/contact-context.tsx:738-760 | offline, the queued change carries the contact as it was before the communication was added |
| ContactProviderLemmas.OfflineDispatched | context/contact-context.tsx:679-765 | the offline dispatch of a save is the offline step between loading on and off, with no requests |
| ContactProviderLemmas.OnlineCommunicationDropsDate | context/contact-context.tsx:898-946 | online, the local step records `now` as last contacted, not the chosen date |
| ContactProviderLemmas.OnlineDispatched | context/contact-context.tsx:679-968 | the online dispatch of a save is the online step followed by loading off |
| ContactProviderLemmas.RefreshFailureShape | context/contact-context.tsx:898-946 | a failed refresh after a posted communication leads to `Failed` with the fetch message, after both requests |
| ContactProviderLemmas.RefreshFailureGoesOffline | context/contact-context.tsx:898-946 | any failure of that refresh switches to offline mode with the network message |
| ContactProviderLemmas.RemoveChangesKeepsCoalesced | context/contact-context.tsx:428-432 | removing changes keeps at most one change per (id, kind) |
| ContactProviderLemmas.ReduceKeepsCoalesced | context/contact-context.tsx:308-443 | every reducer action keeps the queue coalesced |
| ContactProviderLemmas.FailedKeepsCoalesced | context/contact-context.tsx:781-807 | the failure step keeps the queue coalesced |
| ContactProviderLemmas.SettledKeepsCoalesced | context/contact-context.tsx:777-807 | the settle step keeps the queue coalesced |
| ContactProviderLemmas.OfflineKeepsCoalesced | context/contact-context.tsx:692-765 | the offline branch keeps the queue coalesced |
| ContactProviderLemmas.OnlineSaveKeepsCoalesced | context/contact-context.tsx:769-857 | online create and update keep the queue coalesced |
| ContactProviderLemmas.OnlineDeleteKeepsCoalesced | context/contact-context.tsx:861-896 | online delete keeps the queue coalesced |
| ContactProviderLemmas.OnlineCommunicationSettles | context/contact-context.tsx:898-915 | a posted communication is followed by a refresh whose outcome settles the state |
| ContactProviderLemmas.OnlineCommunicationFails | context/contact-context.tsx:916-946 | a failed post goes to `Failed` with its message, after the one request |
| ContactProviderLemmas.OnlineCommunicationKeepsCoalesced | context/contact-context.tsx:898-946 | the online communication branch keeps the queue coalesced |
| ContactProviderLemmas.OnlineKeepsCoalesced | context/contact-context.tsx:767-946 | the whole online branch keeps the queue coalesced |
| ContactProviderLemmas.DispatchKeepsQueueCoalesced | context/contact-context.tsx:677-968 | `enhancedDispatch` keeps at most one pending change per (id, kind) |
| ContactProviderLemmas.UnsyncedMembers | context/contact-context.tsx:545 | the sync selection is exactly the contacts with `_synced === false` |
| ContactProviderLemmas.SelectedContactsAreUnsynced | context/contact-context.tsx:545-562 | no selected contact is flagged synced, so the `!contact._synced` test at 562 always holds |
| ContactProviderLemmas.DeleteRetryBounds | context/contact-context.tsx:570-587 | the retry sends between one and three DELETEs of that id, all three when it fails |
| ContactProviderLemmas.WarrantedAppend | context/contact-context.tsx:552-626 | requests each justified by an unsynced contact stay so when logs are joined |
| ContactProviderLemmas.TombstoneStepFacts | context/contact-context.tsx:554-587 | a tombstone step keeps the offline flag, only removes queued changes and sends only warranted requests |
| ContactProviderLemmas.UpsertStepFacts | context/contact-context.tsx:588-626 | a create/update step keeps the offline flag, only removes queued changes and sends only warranted requests |
| ContactProviderLemmas.SyncStepFacts | context/contact-context.tsx:552-626 | every sync step keeps those facts |
| ContactProviderLemmas.SyncLoopFacts | context/contact-context.tsx:552-626 | the loop keeps the offline flag, never adds queued changes, sends at most three requests per contact, none without a probe, and counts each contact once |
| ContactProviderLemmas.SyncPassFacts | context/contact-context.tsx:525-626 | the same facts for the pass over all unsynced contacts |
| ContactProviderLemmas.SyncUnavailableOnlyReports | context/contact-context.tsx:527-542 | online with a failed probe, sync only reports that the server is unavailable |
| ContactProviderLemmas.AfterLoopFacts | context/contact-context.tsx:628-657 | all succeeded leaves offline mode with an empty queue; otherwise state and requests are those of the pass; at most one listing is fetched |
| ContactProviderLemmas.SyncOutcome | context/contact-context.tsx:525-674 | after sync the syncing flag is off; full success clears the queue and leaves offline mode, otherwise mode is kept and no change is added |
| ContactProviderLemmas.SyncRequestsWarranted | context/contact-context.tsx:525-674 | every sync request is warranted by an unsynced contact, at most 3 per contact plus one listing |
| ContactProviderLemmas.SyncOfflineSendsNoDelete | context/contact-context.tsx:554-567 | a sync started offline never sends a DELETE |
| ContactProviderLemmas.SyncOfflineRestoresDeleted | context/contact-context.tsx:628-657 | after a successful offline sync the contacts are the server listing, with no DELETE sent |
| ContactProviderLemmas.SyncStoresServerCopyAsUnsynced | context/contact-context.tsx:596-616 | during an offline sync every contact the step stores is flagged unsynced |
| TypeAdapters.ContextToTypesAddress | lib/type-adapters.ts:16-34 | a missing address gives all parts undefined; otherwise a part is defined exactly when non-empty |
| TypeAdapters.TypesToContextAddress | lib/type-adapters.ts:39-57 | a missing address gives all-empty parts; otherwise undefined parts become "" |
| TypeAdapters.AddressRoundTrip | lib/type-adapters.ts:16-57 | context → types → context restores any address |
| TypeAdapters.TypesAddressRoundTrip | lib/type-adapters.ts:16-57 | types → context → types restores an address with no empty part |
| TypeAdapters.ContextToTypesAge | lib/type-adapters.ts:62-68 | undefined stays undefined; otherwise the age becomes its `String` rendering |
| TypeAdapters.ParseNumber | lib/type-adapters.ts:78-79 | `Number` of an empty string is not taken; a negative result comes from a leading '-' |
| TypeAdapters.ParseIntToString | lib/type-adapters.ts:62-80 | `Number(String(n)) == n` for every integer |
| TypeAdapters.TypesToContextAge | lib/type-adapters.ts:73-80 | undefined and "" give undefined; a string parses exactly when `Number` gives a number, to that number |
| TypeAdapters.AgeRoundTrip | lib/type-adapters.ts:62-80 | a numeric age survives context → types → context |
| TypeAdapters.TextAgeRoundTrip | lib/type-adapters.ts:62-80 | a textual age comes back as its parsed number or undefined |
| TypeAdapters.ContextToTypesCommunication | lib/type-adapters.ts:163-175 | id and notes kept, timestamp and date are the date, a single type becomes a one-element list, the placeholder `type` is attached |
| TypeAdapters.TypesToContextCommunication | lib/type-adapters.ts:180-187 | id and notes kept, date is the timestamp, the types list becomes the type |
| TypeAdapters.CommunicationRoundTrip | lib/type-adapters.ts:163-187 | the round trip restores a communication, a single type coming back as a list |
| TypeAdapters.MapToTypes | lib/type-adapters.ts:105 | the mapped list converts each communication in place |
| TypeAdapters.MapToContext | lib/type-adapters.ts:143-146 | the mapped list converts each entry in place |
| TypeAdapters.ContextToTypesContact | lib/type-adapters.ts:85-118 | `lastContactedAt` is always null; communications and history are the same converted list; address and age converted; identity fields kept |
| TypeAdapters.TypesToContextContact | lib/type-adapters.ts:123-158 | communications, else history, else []; `lastContactedAt` kept when set, null otherwise; address and age converted |
| TypeAdapters.ContactRoundTrip | lib/type-adapters.ts:85-158 | the contact round trip restores every field except `lastContactedAt` (lost), the age (reparsed) and the communications (re-mapped, same length) |
| TypeAdapters.ContactRoundTripCommunications | lib/type-adapters.ts:85-158 | each communication comes back as its own round trip |
| Airtable.Get | lib/airtable.ts:99-130 | a field is read exactly when the record has it |
| Airtable.StringOr | lib/airtable.ts:103-104 | `String(field \|\| "")`: "" for a falsy field, the text itself for a text field |
| Airtable.ToContactStatusAsWritten | lib/airtable.ts:61-69 | the status mapping as written (upper-cased input compared with mixed-case literals) |
| Airtable.StatusAsWrittenAlwaysActive | lib/airtable.ts:61-69 | as written, every status maps to Active |
| Airtable.ToContactStatus | lib/airtable.ts:61-69 | corrected mapping: falsy gives Active; any other result is the status whose value equals the upper-cased input |
| Airtable.StatusReadsBack | lib/airtable.ts:61-69 | corrected mapping: a status written in any case reads back as itself |
| Airtable.Find | lib/airtable.ts:74-85 | the loops over the category and contact-type values: a result is the first candidate whose value is the string; none exactly when no value equals it |
| Airtable.ToContactCategory | lib/airtable.ts:71-78 | falsy or unknown gives Client, a known value gives that category |
| Airtable.ExhaustiveCategories | lib/airtable.ts:74 | every category value occurs in `Object.values(ContactCategory)` |
| Airtable.ExhaustiveContactTypes | lib/airtable.ts:83 | every contact-type value occurs in `Object.values(ContactType)` |
| Airtable.ToContactType | lib/airtable.ts:80-87 | a result is a known type equal to the truthy field; undefined exactly for falsy or unknown |
| Airtable.ToMaritalStatus | lib/airtable.ts:89-96 | defined exactly for one of the four literals, and then equal to it |
| Airtable.BirthdayAsWritten | lib/airtable.ts:109 | the birthday read as written, through the capitalised key |
| Airtable.BirthdayAsWrittenIsLost | lib/airtable.ts:109 | as written, a stored birthday reads back as "undefined" |
| Airtable.ReadBirthday | lib/airtable.ts:109 | corrected read: defined exactly when the field is truthy, and then the stored text |
| Airtable.ToNumber | lib/airtable.ts:119 | `Number` of a numeric field is that number |
| Airtable.DateOr | lib/airtable.ts:124-125 | a stored date is kept; a falsy field falls back to now |
| Airtable.AirtableToContact | lib/airtable.ts:99-131 | `airtableToContact` with the status read through the corrected `ToContactStatus` and the birthday through the corrected `ReadBirthday`; what it reads is stated by the four lemmas below |
| Airtable.AirtableFixedParts | lib/airtable.ts:99-131 | the record id becomes the contact id, no picture, and empty communications |
| Airtable.AirtableTextDefaults | lib/airtable.ts:103-117 | missing name/role/description become ""; the address is the street text and empty parts |
| Airtable.AirtableKidsDefaults | lib/airtable.ts:118-119 | `hasKids` is the field's truthiness; the number of kids defaults to 0 |
| Airtable.AirtableDateDefaults | lib/airtable.ts:123-125 | last contacted is null exactly when the field is falsy; created/updated fall back to now |
| Airtable.AirtableToCommunication | lib/airtable.ts:134-150 | id kept, date empty, types a list (a single value wrapped), notes "" and timestamp now when missing |
| Airtable.AddressJson | lib/airtable.ts:257 | the stored address is a JSON object text |
| Airtable.LastContactedSlot | lib/airtable.ts:262 | "last contacted at" is the contact date, else the last-contacted date, else undefined |
| Airtable.BuildFields | lib/airtable.ts:249-267 | the map `createContact` builds holds exactly the seventeen sent keys, never the capitalised Birthday or the created-at key |
| Airtable.Defined | lib/airtable.ts:269-271 | the cleaned map holds exactly the defined entries, unchanged |
| Airtable.DeleteUndefined | lib/airtable.ts:269-271 | the deletion loop leaves exactly the defined entries |
| Airtable.Stored | lib/airtable.ts:273 | the record stores the cleaned keys |
| Airtable.StoredGet | lib/airtable.ts:269-273 | a stored key reads back its value |
| Airtable.SentLastContacted | lib/airtable.ts:262-271 | "last contacted at" is sent exactly when a contact or last-contacted date exists, with the contact date preferred |
| Airtable.SentFieldsStored | lib/airtable.ts:249-271 | building the field map and deleting its undefined keys stores exactly the defined slots |
| Airtable.SentGet | lib/airtable.ts:249-273 | every sent key of a created record holds the contact's slot (absent when undefined) |
| Airtable.UpdateSlot | lib/airtable.ts:287-304 | for a `Partial<Contact>` body: an absent property gives undefined, the address included; a present one gives the `createContact` slot |
| Airtable.UpdateFields | lib/airtable.ts:287-304 | the map `updateContact` builds holds the same seventeen keys |
| Airtable.WholeUpdateIsCreate | lib/airtable.ts:249-304 | a body holding every property builds the same map as `createContact` |
| Airtable.AbsentNotSent | lib/airtable.ts:287-308 | a property absent from the body is deleted from the map, so the update leaves that field alone |
| Airtable.PresentSent | lib/airtable.ts:287-308 | a present property is sent exactly when its slot is defined, with that value |
| Airtable.UpdateLastContacted | lib/airtable.ts:299-308 | "last contacted at" is sent exactly when the body holds a contact date or a last-contacted date, the contact date first |
| Airtable.ReadsTexts | lib/airtable.ts:103-107 | a record holding a contact's name, role and description slots reads them back |
| Airtable.ReadsKids | lib/airtable.ts:118-119 | a record holding the kids slots reads back `hasKids` and the number (0 when unset) |
| Airtable.ReadsContactInfo | lib/airtable.ts:126-127 | a record holding the phone and email slots reads them back ("" when unset) |
| Airtable.ReadsDates | lib/airtable.ts:123-129 | a record holding the date slots reads back the contact date and the last-contacted date |
| Airtable.ReadsAddress | lib/airtable.ts:111-112 | a record holding the address slot reads its JSON text back as the street |
| Airtable.ReadsStatus | lib/airtable.ts:105 | with the corrected mapping, a record holding a valid status slot reads it back |
| Airtable.ReadsCategory | lib/airtable.ts:106 | a record holding a category slot reads back a known category, or Client for an unknown one |
| Airtable.ReadBackTexts | lib/airtable.ts:244-275 | a created record reads back the name, role and description |
| Airtable.ReadBackKids | lib/airtable.ts:244-275 | it reads back `hasKids` and the number of kids (0 when unset) |
| Airtable.ReadBackContactInfo | lib/airtable.ts:244-275 | it reads back phone and email ("" when unset) |
| Airtable.ReadBackDates | lib/airtable.ts:244-275 | it reads back the contact date, and the contact date (or else the last-contacted date) as last contacted |
| Airtable.ReadBackAddress | lib/airtable.ts:244-275 | it reads back the JSON address text as the street |
| Airtable.ReadBackStatus | lib/airtable.ts:244-275 | with the corrected status mapping, a valid status reads back unchanged |
| Airtable.ReadBackCategory | lib/airtable.ts:244-275 | a known category reads back unchanged, an unknown one as Client |
| FormatUtils.DigitsOnly | lib/format-utils.ts:10 | `replace(/\D/g, "")` keeps only digits, and a digit string unchanged |
| FormatUtils.DigitsOnlyAppend | lib/format-utils.ts:10 | stripping distributes over concatenation |
| FormatUtils.FormatPhoneNumber | lib/format-utils.ts:6-23 | falsy gives "", fewer than ten digits gives the digits, the result only holds digits and the format characters |
| FormatUtils.FormatLongNumber | lib/format-utils.ts:17-22 | ten or more digits give `(ddd) ddd-dddd` holding the first ten digits |
| FormatUtils.FormatKeepsLeadingDigits | lib/format-utils.ts:6-23 | the digits of the result are the first (up to ten) digits of the input |
| FormatUtils.FormatDependsOnDigitsOnly | lib/format-utils.ts:6-23 | the result depends only on the input's digits |
| FormatUtils.FormatIdempotent | lib/format-utils.ts:6-23 | formatting a formatted number changes nothing |
| UiHelpers.StatusColor | lib/ui-helpers.ts:4-17 | each status gets its colour, anything else gray |
| UiHelpers.CommunicationTypeIcon | lib/ui-helpers.ts:19-32 | each communication type gets its icon, anything else the user icon |
| UiHelpers.GrayUnlessKnown | lib/ui-helpers.ts:4-17 | the colour is not gray exactly for Active, Inactive and Pending |
| UiHelpers.IconIdentifiesType | lib/ui-helpers.ts:19-32 | the phone, video and mail icons each identify their type |
| ContactStatistics.ActiveInactiveDisjoint | components/contact-statistics.tsx:14-19 | active plus inactive never exceeds the total |
| ContactStatistics.ComputeStatistics | components/contact-statistics.tsx:13-28 | the total is the list length; active + inactive and recently contacted are at most the total |
| ContactStatistics.Percentage | components/contact-statistics.tsx:51 | 0 for no contacts, otherwise the share rounded half up, at most 100 |
| ContactStatistics.PercentageBounds | components/contact-statistics.tsx:51 | the rounding bounds of the share |
| ContactStatistics.AddingContactCountsOnce | components/contact-statistics.tsx:13-28 | adding a contact adds one to the total and one to each count it belongs to |
| Recency.Insert | components/contact-list.tsx:56-58 | insertion into the sorted list is a permutation with one more element |
| Recency.SortNewestFirst | components/contact-list.tsx:56-58 | the sort is a permutation |
| Recency.InsertKeepsOrder | components/contact-list.tsx:56-58 | insertion keeps newest-first order |
| Recency.SortIsNewestFirst | components/contact-list.tsx:56-58 | the sort yields newest-first order |
| Recency.FirstValid | components/contact-list.tsx:61-67 | `find`: none exactly when no entry has a valid type and date, otherwise the first such entry's date |
| Recency.LastValidDate | components/contact-list.tsx:52-70 | `getLastValidContactDate`: null for no communications, else the first valid entry of the sorted copy (stated by the two lemmas below) |
| Recency.LastValidDateFound | components/contact-list.tsx:52-70 | no date exactly when no communication is valid; otherwise the date of a valid one |
| Recency.LastValidDateIsNewest | components/contact-list.tsx:52-70 | the date found is the newest of the valid communications |
| Recency.EntryStamps | components/contact-list.tsx:61-67 | each entry's validity is its type placeholder and date |
| Recency.LastContactedDate | components/contact-list.tsx:93-95 | `lastContactedAt` when set, otherwise the newest valid communication date |
| Recency.NoDateIffNoValidCommunication | components/contact-list.tsx:93-95 | no date exactly when `lastContactedAt` is unset and no communication has a type and date |
| ContactList.PageCount | components/contact-list.tsx:28 | `ceil(n / size)`: zero exactly for no contacts, and the least page count holding them |
| ContactList.TotalPages | components/contact-list.tsx:28-29 | `total \|\| 1`: at least one page |
| ContactList.ClampedPage | components/contact-list.tsx:32-34 | a page past a non-zero total becomes the last page, otherwise it is kept |
| ContactList.Slice | components/contact-list.tsx:39 | `slice(start, end)`: the elements from start up to end, clipped |
| ContactList.PageOf | components/contact-list.tsx:37-39 | exactly `min(size, n - (page-1)*size)` contacts (none past the end), those at positions `(page-1)*size` onward, in order |
| ContactList.ClampedPageIsShown | components/contact-list.tsx:32-39 | after clamping, a page in range is kept and the clamped page shows contacts |
| ContactList.ClampIdempotent | components/contact-list.tsx:32-34 | clamping twice equals clamping once |
| ContactList.PageButtonShown | components/contact-list.tsx:172 | `shouldShow`: the first and last page and those next to the current one (stated by `FewButtonsShown`) |
| ContactList.EllipsisShown | components/contact-list.tsx:174-180 | a hidden page renders "..." only in the second or the second-to-last place |
| ContactList.FewButtonsShown | components/contact-list.tsx:171-183 | the current page button is shown; shown buttons are first, last and neighbours; ellipses only elsewhere |
| ContactList.ControlsShown | components/contact-list.tsx:157 | the controls render for more than one page |
| ContactList.ControlsShownIffOverflow | components/contact-list.tsx:157 | pagination controls appear exactly when the contacts exceed one page |
| ContactList.ContactListView.constructor | components/contact-list.tsx:21-24 | page 1 of 1 and no contacts shown |
| ContactList.ContactListView.ReceiveContacts | components/contact-list.tsx:21 | new contacts are stored; the page state waits for the effect |
| ContactList.ContactListView.Refresh | components/contact-list.tsx:27-40 | the effect sets the total pages, clamps the current page and shows the slice of the page it started on |
| ContactList.ContactListView.GoToPage | components/contact-list.tsx:43-49 | a page in range becomes current, any other request is ignored |
| CheckNotifications.DifferenceInDays | components/check-notifications.tsx:60 | whole days elapsed, truncated, non-negative for a past date |
| CheckNotifications.NotificationFor | components/check-notifications.tsx:46-66 | never contacted gives that message; otherwise a notification exactly when 30 or more days have passed |
| CheckNotifications.DueOnlyAfterThirtyDays | components/check-notifications.tsx:59-66 | due exactly when at least 30 days of milliseconds have elapsed |
| CheckNotifications.Notifications | components/check-notifications.tsx:39-69 | the effect's loop: at most one reminder per contact |
| CheckNotifications.NotificationsAppend | components/check-notifications.tsx:39-69 | notifications of a concatenation are those of each part, in order |
| CheckNotifications.NotificationsAreDue | components/check-notifications.tsx:39-69 | each notification belongs to an undismissed due contact, and every undismissed due contact gets one |
| CheckNotifications.DismissedGetNothing | components/check-notifications.tsx:43 | no notification concerns a dismissed id |
| CheckNotifications.CheckNotificationsView.constructor | components/check-notifications.tsx:15-16 | no notifications and nothing dismissed |
| CheckNotifications.CheckNotificationsView.Refresh | components/check-notifications.tsx:38-70 | the effect loop sets the notifications to `Notifications` of the contacts |
| CheckNotifications.CheckNotificationsView.HandleDismiss | components/check-notifications.tsx:78-80 | dismissing appends the id |
| CheckNotifications.DismissSilences | components/check-notifications.tsx:43-80 | after dismissing an id the reminders are the earlier ones without those for that id: none concerns it, and dismissing an unknown id changes nothing |
| ContactFilters.With | components/contact-filters.tsx:64-91 | setting a filter field changes that field and no other |
| ContactFilters.SelectValue | components/contact-filters.tsx:79-91 | "all" clears the field, any other value is kept |
| ContactFilters.HasActiveFilters | components/contact-filters.tsx:151-156 | `hasActiveFilters`: some of the five fields is non-empty |
| ContactFilters.ActiveIffSomeField | components/contact-filters.tsx:151-156 | filters are active exactly when some field is non-empty; the empty filters are not active |
| ContactFilters.SelectAllClears | components/contact-filters.tsx:79-91 | choosing "all" clears that field and never activates filters |
| ContactFilters.ContactFiltersView.constructor | components/contact-filters.tsx:53-62 | local filters start from the parent's, or empty; nothing forwarded, popover closed |
| ContactFilters.ContactFiltersView.SetField | components/contact-filters.tsx:64-91 | the current filters (parent's when given, else local) get the field set |
| ContactFilters.ContactFiltersView.HandleInputChange | components/contact-filters.tsx:64-77 | a text input sets its field |
| ContactFilters.ContactFiltersView.HandleSelectChange | components/contact-filters.tsx:79-91 | a select sets its field, "all" as empty |
| ContactFilters.ContactFiltersView.ApplyFilters | components/contact-filters.tsx:93-114 | the current filters are forwarded when a callback exists; the popover closes |
| ContactFilters.ContactFiltersView.ResetFilters | components/contact-filters.tsx:116-149 | the filters become empty (and inactive), forwarded when a callback exists; the popover closes |
| ContactManagement.AtContactLimit | components/contact-management.tsx:44 | the 150-contact limit is reached (used by `HandleAddContact`) |
| ContactManagement.UnsyncedCount | components/contact-management.tsx:47 | at most the number of contacts, zero exactly when none is flagged unsynced |
| ContactManagement.UnsyncedCountAppend | components/contact-management.tsx:47 | appending a contact adds one exactly when it is unsynced |
| ContactManagement.UnsyncedCountIsSyncQueue | components/contact-management.tsx:47 | the contacts counted are exactly those the sync pass selects |
| ContactManagement.SyncButtonShown | components/contact-management.tsx:235 | the sync button shows offline with some unsynced contact |
| ContactManagement.SyncButtonShownIff | components/contact-management.tsx:235 | the sync button shows exactly when offline with some unsynced contact |
| ContactManagement.Shown | components/contact-management.tsx:209-219 | the filter predicate: deleted contacts hidden, name and role case-insensitive substrings, status and category equal when set, the `date` filter not read |
| ContactManagement.DateFilterIgnored | components/contact-management.tsx:209-219 | the `date` entry of the filters state never changes whether a contact is shown |
| ContactManagement.DateFilterKeepsList | components/contact-management.tsx:209-219 | setting the `date` filter leaves the visible and the filtered list as they were |
| ContactManagement.VisibleContacts | components/contact-management.tsx:208-219 | the contacts kept are exactly those the filter predicate accepts, from the list |
| ContactManagement.FilteredContacts | components/contact-management.tsx:208-220 | one converted contact per visible contact, none deleted |
| ContactManagement.FilteredKeepsOrder | components/contact-management.tsx:208-220 | filtering preserves the list order |
| ContactManagement.EmptyFiltersShowAllLive | components/contact-management.tsx:208-219 | with empty filters every contact not deleted is shown |
| ContactManagement.FilterIgnoresCase | components/contact-management.tsx:214-215 | the name and role filters ignore letter case |
| ContactManagement.ConvertToTypeContact | components/contact-management.tsx:120-154 | communications emptied, history converted entry by entry, `lastContactedAt` a date or null, id and flags kept |
| ContactManagement.ConvertedFallbackIsDead | components/contact-management.tsx:120-154 | the last-contacted date shown for a converted contact is exactly its stored `lastContactedAt` |
| ContactManagement.NewContact | components/contact-management.tsx:81-102 | the id is the form's or a fresh one, no communications, last contacted is the contact date, created and updated now |
| ContactManagement.NewContactAddress | components/contact-management.tsx:81-102 | a missing address becomes all-empty parts, given parts default to "" |
| ContactManagement.HandleAddContact | components/contact-management.tsx:71-117 | nothing is dispatched at the 150-contact limit; otherwise an ADD_CONTACT carrying the contact date |
| ContactManagement.AddedContactShowsContactDate | components/contact-management.tsx:71-154 | a newly added contact shows its contact date as last contacted |
| ContactManagement.EditedCommunications | components/contact-management.tsx:136-142 | one communication per history entry: its id (a fresh one when empty), types, notes, timestamp |
| ContactManagement.EditedContact | components/contact-management.tsx:157-194 | last contacted is the contact date, else the given date, else unset; id and creation kept, updated now |
| ContactManagement.EditAfterConvert | components/contact-management.tsx:120-194 | editing a converted contact unchanged restores its communications (type lists with ids) and its last-contacted date |
| ContactDetails.Split | components/contact-details.tsx:41 | `split(" ")`: at least one part, none containing the separator |
| ContactDetails.JoinSplit | components/contact-details.tsx:41 | joining the parts restores the string |
| ContactDetails.SplitPrefix | components/contact-details.tsx:41 | splitting a separator-free prefix extends the first part |
| ContactDetails.SplitJoin | components/contact-details.tsx:41 | splitting a join of separator-free parts restores them |
| ContactDetails.FirstChars | components/contact-details.tsx:42-43 | at most one character per part |
| ContactDetails.GetInitials | components/contact-details.tsx:40-47 | at most two characters, none a lower-case letter |
| ContactDetails.OneWordInitials | components/contact-details.tsx:40-47 | one word gives its upper-cased first letter |
| ContactDetails.TwoWordInitials | components/contact-details.tsx:40-47 | two words give both upper-cased first letters |
| ContactDetails.SavedContact | components/contact-details.tsx:62-77 | the contact `handleSaveContact` dispatches (stated by the three lemmas below) |
| ContactDetails.SaveKeepsIdentity | components/contact-details.tsx:62-77 | a save keeps the stored id, creation time and last-contacted date |
| ContactDetails.SaveKeepsEdits | components/contact-details.tsx:62-77 | a save takes the edited name, role, status, category, description, phone and email |
| ContactDetails.SaveKeepsCommunications | components/contact-details.tsx:62-77 | a save keeps the stored communications, each with its types as a list |
| ContactDetails.HandleSaveContact | components/contact-details.tsx:62-77 | an UPDATE_CONTACT for the stored id, and editing ends |
| ContactDetails.HandleDeleteConfirm | components/contact-details.tsx:57-60 | a DELETE_CONTACT for the stored id, and the dialog closes |
| ContactDetails.CommStamps | components/contact-details.tsx:92-110 | each communication is dated and valid exactly when its type is non-empty |
| ContactDetails.LastContactedDate | components/contact-details.tsx:112-114 | `lastContactedAt` when set, else `getLastValidContactDate` over the stored communications (stated by the two lemmas below) |
| ContactDetails.NeverContactedIff | components/contact-details.tsx:242-244 | "never contacted" exactly when no date is stored and no communication has a type |
| ContactDetails.LastContactedIsNewest | components/contact-details.tsx:112-116 | the date shown is at least every valid communication's date |
| ContactDetails.AddressPart | components/contact-details.tsx:188-191 | a truthy part and a comma, or nothing |
| ContactDetails.AddressLine | components/contact-details.tsx:188-192 | ends with the country or "Not specified", starts with the street and ", " when there is one |
| ContactDetails.EmptyAddressLine | components/contact-details.tsx:188-192 | an empty address reads "Not specified" |
| ContactDetails.StoredAddressLine | components/contact-details.tsx:188-192 | for every stored contact: its non-empty street, city, state and zip code, each followed by ", ", then its country or "Not specified" |
| ContactDetails.KidsText | components/contact-details.tsx:197 | "No" exactly without kids, otherwise "Yes (" + the number (or "undefined") + ")" |
| ContactDetails.MaritalStatusShown | components/contact-details.tsx:199 | the marital status row shows for the Woman category and a set value (stated by `MaritalStatusOnlyForWomen`) |
| ContactDetails.MaritalStatusOnlyForWomen | components/contact-details.tsx:199 | the marital status shows exactly for the Woman category with a non-empty status |
| BirthdayField.DaysInMonth | components/birthday-field.tsx:48-52 | 28 to 31 days, December 31 |
| BirthdayField.MakeDate | components/birthday-field.tsx:39-52 | a date is built in the given year, unchanged when the day exists |
| BirthdayField.SetFullYear | components/birthday-field.tsx:72-78 | `setFullYear` sets the year |
| BirthdayField.SetFullYearKeepsMonthDay | components/birthday-field.tsx:72-78 | month and day are kept except for 29 February |
| BirthdayField.LeapDayInCommonYear | components/birthday-field.tsx:72-78 | 29 February in a common year rolls over to 1 March |
| BirthdayField.ParseLeadingInt | components/birthday-field.tsx:68 | `parseInt` is NaN exactly when no digit follows an optional sign |
| BirthdayField.LeadingDigits | components/birthday-field.tsx:68 | a digit run exists exactly when the string starts with a digit |
| BirthdayField.DigitRun | components/birthday-field.tsx:68 | the longest leading digit run |
| BirthdayField.ParseRendered | components/birthday-field.tsx:68 | `parseInt` of a rendered natural gives it back |
| BirthdayField.AdjustedYear | components/birthday-field.tsx:33-37 | the loop's year: at most the birth year, not after today, and the largest such |
| BirthdayField.PastBirthdayKeepsYear | components/birthday-field.tsx:33-37 | a birth date not after today is not adjusted |
| BirthdayField.AgeNotNegative | components/birthday-field.tsx:39-45 | the age of a past birth date is never negative, zero within the same year |
| BirthdayField.BirthdayFieldView.constructor | components/birthday-field.tsx:17-23 | nothing reported yet |
| BirthdayField.BirthdayFieldView.CalculateAge | components/birthday-field.tsx:25-55 | the age of the adjusted birth date, never negative; a birthday change is reported only when the year moved |
| BirthdayField.BirthdayFieldView.MoveBack | components/birthday-field.tsx:27-37 | the loop stops at `AdjustedYear`: the latest year not after the birth year whose birthday is not in the future |
| BirthdayField.BirthdayFieldView.HandleAgeChange | components/birthday-field.tsx:59-80 | "" clears the age; NaN or negative is ignored; otherwise the age is reported and the birthday moved to today's year minus the age |
| CommunicationForm.Toggle | components/communication-form.tsx:23-29 | a present type is removed (others kept), an absent one appended |
| CommunicationForm.ToggleFlips | components/communication-form.tsx:23-29 | toggling flips membership |
| CommunicationForm.ToggleTwiceRestoresAbsent | components/communication-form.tsx:23-29 | toggling an absent type twice restores the list |
| CommunicationForm.ToggleTwiceMovesPresent | components/communication-form.tsx:23-29 | toggling a present type twice moves it to the end, same members |
| CommunicationForm.ToggleTwiceReorders | components/communication-form.tsx:23-29 | a concrete list whose order changes |
| CommunicationForm.FilterNoDuplicates | components/communication-form.tsx:25 | filtering keeps a duplicate-free list so |
| CommunicationForm.ToggleKeepsNoDuplicates | components/communication-form.tsx:23-29 | toggling keeps the selection free of duplicates |
| CommunicationForm.CommunicationFormView.constructor | components/communication-form.tsx:19-21 | no types, no notes, today's date |
| CommunicationForm.CommunicationFormView.HandleTypeToggle | components/communication-form.tsx:23-29 | the selection becomes its toggle, the rest stays |
| CommunicationForm.CommunicationFormView.SetNotes | components/communication-form.tsx:20 | the notes change, the rest stays |
| CommunicationForm.CommunicationFormView.SetContactDate | components/communication-form.tsx:21 | the date changes, the rest stays |
| CommunicationForm.CommunicationFormView.HandleSubmit | components/communication-form.tsx:31-46 | with no type nothing happens; otherwise the entry is saved and the form reset |

## Left out

- HTTP plumbing (`fetch`, response JSON, status codes), timers, the one-second sleep between delete retries, `localStorage` persistence, toasts, console logging and React rendering are not modelled. The server is the `Remote` parameter, the clock and generated ids are the `Env` parameter, and the probe of `checkApiAvailability` is a boolean.
- The Airtable SDK calls (`select`, `find`, `create`, `update`, `destroy`) and the fetch-and-map wrappers `fetchContacts`, `fetchAllCommunications`, `fetchContact` and `fetchCommunications` are not modelled. What they add over `AirtableToContact`, `AirtableToCommunication`, `BuildFields`, `UpdateFields` and `DeleteUndefined` is I/O and catching errors into `[]`/`null`.
- Timestamps are integer milliseconds. Date parsing, time zones, daylight saving and the time of day are not modelled; the birthday field works on calendar dates.
- Recency.SortNewestFirst: the comparator sort is modelled as an insertion sort on dated entries. Undated entries do not occur once the contact has been converted, so how they would sort is not modelled.
- TypeAdapters.ParseNumber: `Number(s)` is modelled on optionally signed decimal integers. Whitespace, decimals, exponents and hexadecimal are not modelled, and NaN is `None`.
- BirthdayField.ParseLeadingInt models `parseInt` as a sign followed by leading digits. Leading whitespace and radix prefixes are not modelled.
- ContactStatistics.Percentage models `Math.round` of the floating-point share exactly as rounding half up on integers. Floating-point error is not modelled.
- Case mapping (`toLowerCase`/`toUpperCase`) is ASCII only.
- ContactManagement.EditedContact: the `entry.timestamp \|\| now` fallback is not modelled. In this model every entry carries a timestamp.
- ContactFilters.ContactFiltersView: the `filters` and `setFilters` props are taken to be given together, as the only caller does. `onFiltersChange` is modelled by its presence only, and each forwarded value is logged.
- ContactList: `pageSize` is required to be positive, and the default of 6 is left to the caller. Scrolling to the top on a page change is not modelled.
- The age display, the date picker, the photo and the remaining JSX layout are not modelled.
- Airtable.DateOr: dates are timestamps, so a date field that holds a truthy value of another kind (a text) reads as `now`, where `String(value)` would keep the text.
- Airtable.UpdateFields: the `Partial<Contact>` body is a whole contact plus the set of properties present in it. A present property whose value is `null` where the type does not allow it is not modelled. How Airtable's `update` merges the sent fields into the stored record is not modelled: `AbsentNotSent` states only that an absent property is not sent.
- JSON escaping in `Airtable.AddressJson` is not modelled. Only the object shape of the text is stated.
- `airtableToCommunication` keeps the raw type values. The model does not check them against the communication types.
- `deleteContact` and the communications API of lib/airtable.ts are not part of this model.

## Findings

| source | as written | input that shows it | evidently intended | confidence | as-written member | corrected member |
|---|---|---|---|---|---|---|
| lib/airtable.ts:61-69 | the input is upper-cased, then compared with "Active", "Inactive", "Pending", "Blocked" | a record whose status is "INACTIVE" maps to Active | compare with the upper-case enum values, so each status maps to itself | not executed | Airtable.StatusAsWrittenAlwaysActive | Airtable.StatusReadsBack |
| lib/airtable.ts:109 | tests `fields.birthday` but reads `fields.Birthday` | a record with birthday "1990-05-17" reads back "undefined" | read the field that was tested | not executed | Airtable.BirthdayAsWrittenIsLost | Airtable.ReadBirthday |
