/** components/contact-statistics.tsx: the four figures on the statistics
    cards, computed over every contact of the store. */
module ContactStatistics {
  import opened Common
  import opened ContactTypes
  import opened ContactReducer

  const RECENT_DAYS: int := 30

  predicate IsActive(c: Contact) {
    c.status == Active.Value()
  }

  predicate IsInactive(c: Contact) {
    c.status == Inactive.Value()
  }

  /** Contacted no earlier than thirty days before `now`; a contact never
      contacted is not recent. */
  predicate RecentlyContactedAt(c: Contact, now: Timestamp) {
    c.lastContactedAt.Some? && c.lastContactedAt.value >= now - RECENT_DAYS * DAY_MS
  }

  datatype Statistics = Statistics(total: nat, active: nat, inactive: nat, recentlyContacted: nat)

  /** No contact is both active and inactive, so the two filters together
      select at most every contact once. */
  lemma {:induction false} ActiveInactiveDisjoint(contacts: seq<Contact>)
    ensures |Filter(contacts, IsActive)| + |Filter(contacts, IsInactive)| <= |contacts|
    decreases |contacts|
  {
    if contacts != [] {
      ActiveInactiveDisjoint(contacts[1..]);
    }
  }

  /** The statistics cards' figures. */
  function ComputeStatistics(contacts: seq<Contact>, now: Timestamp): (st: Statistics)
    ensures st.total == |contacts|
    ensures st.active + st.inactive <= st.total
    ensures st.recentlyContacted <= st.total
  {
    ActiveInactiveDisjoint(contacts);
    Statistics(
      |contacts|,
      |Filter(contacts, IsActive)|,
      |Filter(contacts, IsInactive)|,
      |Filter(contacts, c => RecentlyContactedAt(c, now))|)
  }

  /** `Math.round(part / total * 100)`, or 0 when there are no contacts, in
      exact arithmetic: the integer nearest to the percentage, halves rounded up. */
  function Percentage(part: nat, total: nat): (r: nat)
    ensures total == 0 ==> r == 0
    ensures total > 0 ==> 2 * total * r <= 200 * part + total < 2 * total * r + 2 * total
    ensures part <= total ==> r <= 100
  {
    if total > 0 then PercentageBounds(part, total); (200 * part + total) / (2 * total) else 0
  }

  lemma PercentageBounds(part: nat, total: nat)
    requires total > 0
    ensures var r := (200 * part + total) / (2 * total);
      2 * total * r <= 200 * part + total < 2 * total * r + 2 * total
      && (part <= total ==> r <= 100)
  {
    var d, n := 2 * total, 200 * part + total;
    var r, m := n / d, n % d;
    assert n == d * r + m && 0 <= m < d;
    if part <= total && r > 100 {
      MultiplyMonotone(d, 101, r);
      assert false;
    }
  }

  lemma MultiplyMonotone(d: nat, a: nat, b: nat)
    requires a <= b
    ensures d * a <= d * b
  {
  }

  /** Adding a contact raises the total by one and each other figure by at most one. */
  lemma {:induction false} AddingContactCountsOnce(contacts: seq<Contact>, c: Contact, now: Timestamp)
    ensures var before := ComputeStatistics(contacts, now);
      var after := ComputeStatistics(contacts + [c], now);
      after.total == before.total + 1
      && after.active == before.active + (if IsActive(c) then 1 else 0)
      && after.inactive == before.inactive + (if IsInactive(c) then 1 else 0)
      && after.recentlyContacted == before.recentlyContacted + (if RecentlyContactedAt(c, now) then 1 else 0)
  {
    FilterAppend(contacts, [c], IsActive);
    FilterAppend(contacts, [c], IsInactive);
    FilterAppend(contacts, [c], c => RecentlyContactedAt(c, now));
  }
}
