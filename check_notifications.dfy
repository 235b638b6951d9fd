/** components/check-notifications.tsx: the reminders for contacts that have
    not been contacted for thirty days, and their dismissal. */
module CheckNotifications {
  import opened Common
  import opened ContactTypes
  import opened Recency

  const REMINDER_DAYS: int := 30

  datatype Notification = Notification(id: string, message: string)

  /** `differenceInDays(later, earlier)`: whole days between the two
      instants, truncated toward zero. */
  function DifferenceInDays(later: Timestamp, earlier: Timestamp): (days: int)
    ensures later >= earlier ==> days >= 0 && days * DAY_MS <= later - earlier < (days + 1) * DAY_MS
    ensures later < earlier ==> days <= 0
  {
    if later >= earlier then (later - earlier) / DAY_MS else -((earlier - later) / DAY_MS)
  }

  function NeverContactedMessage(name: string): string {
    name + " has never been contacted."
  }

  function OverdueMessage(name: string, days: int): string {
    name + " hasn't been contacted in " + IntToString(days) + " days."
  }

  /** The reminder one contact gets, if any: "never contacted" without a
      last-contacted date, otherwise one when thirty or more whole days have
      passed. */
  function NotificationFor(c: TypesContact, now: Timestamp): (n: Option<Notification>)
    ensures n.Some? ==> n.value.id == c.id
    ensures LastContactedDate(c).None? ==> n == Some(Notification(c.id, NeverContactedMessage(c.name)))
    ensures LastContactedDate(c).Some? ==>
      (n.Some? <==> DifferenceInDays(now, LastContactedDate(c).value) >= REMINDER_DAYS)
  {
    match LastContactedDate(c)
    case None => Some(Notification(c.id, NeverContactedMessage(c.name)))
    case Some(last) =>
      var daysSinceContact := DifferenceInDays(now, last);
      if daysSinceContact >= REMINDER_DAYS then Some(Notification(c.id, OverdueMessage(c.name, daysSinceContact)))
      else None
  }

  /** A reminder is due only for a contact last contacted at least thirty days ago. */
  lemma DueOnlyAfterThirtyDays(c: TypesContact, now: Timestamp)
    requires LastContactedDate(c).Some?
    ensures NotificationFor(c, now).Some? <==> now - LastContactedDate(c).value >= REMINDER_DAYS * DAY_MS
  {
  }

  /** The reminders for `contacts`, in their order, skipping dismissed ids. */
  function Notifications(contacts: seq<TypesContact>, dismissed: seq<string>, now: Timestamp): (r: seq<Notification>)
    ensures |r| <= |contacts|
    decreases |contacts|
  {
    if contacts == [] then []
    else
      var last := contacts[|contacts| - 1];
      var earlier := Notifications(contacts[..|contacts| - 1], dismissed, now);
      if last.id in dismissed then earlier
      else match NotificationFor(last, now)
        case Some(n) => earlier + [n]
        case None => earlier
  }

  /** Reminders follow the order of the contacts: those for a concatenation
      are the reminders for each part, one after the other. */
  lemma {:induction false} NotificationsAppend(a: seq<TypesContact>, b: seq<TypesContact>, dismissed: seq<string>, now: Timestamp)
    ensures Notifications(a + b, dismissed, now) == Notifications(a, dismissed, now) + Notifications(b, dismissed, now)
    decreases |b|
  {
    if b != [] {
      assert (a + b)[..|a + b| - 1] == a + b[..|b| - 1];
      NotificationsAppend(a, b[..|b| - 1], dismissed, now);
    } else {
      assert a + b == a;
    }
  }

  /** Each reminder is the reminder of one undismissed contact, there is at
      most one per contact, and every undismissed contact that is due gets one. */
  lemma {:induction false} NotificationsAreDue(contacts: seq<TypesContact>, dismissed: seq<string>, now: Timestamp)
    ensures |Notifications(contacts, dismissed, now)| <= |contacts|
    ensures forall n | n in Notifications(contacts, dismissed, now) ::
      exists c | c in contacts :: c.id !in dismissed && NotificationFor(c, now) == Some(n)
    ensures forall c | c in contacts && c.id !in dismissed && NotificationFor(c, now).Some? ::
      NotificationFor(c, now).value in Notifications(contacts, dismissed, now)
    decreases |contacts|
  {
    if contacts != [] {
      var init := contacts[..|contacts| - 1];
      NotificationsAreDue(init, dismissed, now);
      assert contacts == init + [contacts[|contacts| - 1]];
      forall c | c in init
        ensures c in contacts
      {
      }
    }
  }

  /** No reminder carries a dismissed id. */
  lemma DismissedGetNothing(contacts: seq<TypesContact>, dismissed: seq<string>, now: Timestamp)
    ensures forall n | n in Notifications(contacts, dismissed, now) :: n.id !in dismissed
  {
    NotificationsAreDue(contacts, dismissed, now);
  }

  /** The component state: the reminders shown and the ids dismissed so far. */
  class CheckNotificationsView {
    var notifications: seq<Notification>
    var dismissed: seq<string>

    constructor()
      ensures notifications == [] && dismissed == []
    {
      notifications := [];
      dismissed := [];
    }

    /** The effect run when the contacts or the dismissed ids change: one
        pass over the contacts pushing each due reminder. */
    method Refresh(contacts: seq<TypesContact>, now: Timestamp)
      modifies this
      ensures notifications == Notifications(contacts, dismissed, now)
      ensures dismissed == old(dismissed)
    {
      var newNotifications: seq<Notification> := [];
      for i := 0 to |contacts|
        invariant newNotifications == Notifications(contacts[..i], dismissed, now)
      {
        var contact := contacts[i];
        assert contacts[..i + 1][..i] == contacts[..i];
        if contact.id in dismissed {
          continue;
        }
        var lastContactedDate := LastContactedDate(contact);
        if lastContactedDate.None? {
          newNotifications := newNotifications + [Notification(contact.id, NeverContactedMessage(contact.name))];
          continue;
        }
        var daysSinceContact := DifferenceInDays(now, lastContactedDate.value);
        if daysSinceContact >= REMINDER_DAYS {
          newNotifications := newNotifications + [Notification(contact.id, OverdueMessage(contact.name, daysSinceContact))];
        }
      }
      assert contacts[..|contacts|] == contacts;
      notifications := newNotifications;
    }

    /** `handleDismiss`: the id is appended, so the dismissed list only grows. */
    method HandleDismiss(id: string)
      modifies this
      ensures dismissed == old(dismissed) + [id]
      ensures notifications == old(notifications)
    {
      dismissed := dismissed + [id];
    }
  }

  /** After a dismissal the next pass shows no reminder for that id, and the
      reminders for other contacts are unchanged: the new reminders are the
      old ones without those for that id. */
  lemma {:induction false} DismissSilences(contacts: seq<TypesContact>, dismissed: seq<string>, id: string, now: Timestamp)
    ensures forall n | n in Notifications(contacts, dismissed + [id], now) :: n.id != id
    ensures (forall c | c in contacts :: c.id != id) ==>
      Notifications(contacts, dismissed + [id], now) == Notifications(contacts, dismissed, now)
    ensures Notifications(contacts, dismissed + [id], now) == Filter(Notifications(contacts, dismissed, now), (n: Notification) => n.id != id)
    decreases |contacts|
  {
    DismissedGetNothing(contacts, dismissed + [id], now);
    if contacts != [] {
      var init := contacts[..|contacts| - 1];
      var last := contacts[|contacts| - 1];
      DismissSilences(init, dismissed, id, now);
      if forall c | c in contacts :: c.id != id {
        forall c | c in init
          ensures c.id != id
        {
          assert c in contacts;
        }
      }
      var earlier := Notifications(init, dismissed, now);
      if last.id !in dismissed && NotificationFor(last, now).Some? {
        var n := NotificationFor(last, now).value;
        FilterAppend(earlier, [n], (n: Notification) => n.id != id);
        assert [n][1..] == [];
      }
    }
  }
}
