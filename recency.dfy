/** The "last valid contact date" rule shared by components/contact-list.tsx,
    components/check-notifications.tsx and components/contact-details.tsx:
    copy the communications, sort the copy newest first with the comparator
    `new Date(b.date) - new Date(a.date)`, and take the date of the first one
    that has a non-empty type and a date. Each component reduces its
    communications to `Stamp`s. */
module Recency {
  import opened Common
  import opened ContactTypes

  /** What the rule looks at in one communication: whether its type is valid
      (a non-empty list, or a truthy single value) and its date, if any. */
  datatype Stamp = Stamp(validType: bool, date: Option<Timestamp>)

  predicate Valid(x: Stamp) {
    x.validType && x.date.Some?
  }

  function Key(x: Stamp): int {
    x.date.GetOr(0)
  }

  /** The comparator. A missing date makes `new Date(...)` invalid and the
      difference `NaN`, which `Array.prototype.sort` reads as 0. */
  function Compare(a: Stamp, b: Stamp): int {
    if a.date.Some? && b.date.Some? then b.date.value - a.date.value else 0
  }

  /** Inserts `x` in front of the first element the comparator puts after it. */
  function Insert(x: Stamp, sorted: seq<Stamp>): (r: seq<Stamp>)
    ensures multiset(r) == multiset(sorted) + multiset{x}
    ensures |r| == |sorted| + 1
  {
    if sorted == [] then [x]
    else if Compare(x, sorted[0]) < 0 then [x] + sorted
    else
      assert sorted == [sorted[0]] + sorted[1..];
      [sorted[0]] + Insert(x, sorted[1..])
  }

  /** A stable insertion sort with the comparator. */
  function SortNewestFirst(s: seq<Stamp>): (r: seq<Stamp>)
    ensures multiset(r) == multiset(s)
    ensures |r| == |s|
  {
    if s == [] then []
    else
      assert s == s[..|s| - 1] + [s[|s| - 1]];
      Insert(s[|s| - 1], SortNewestFirst(s[..|s| - 1]))
  }

  predicate AllDated(s: seq<Stamp>) {
    forall i :: 0 <= i < |s| ==> s[i].date.Some?
  }

  predicate NewestFirst(s: seq<Stamp>) {
    forall i, j :: 0 <= i < j < |s| ==> Key(s[i]) >= Key(s[j])
  }

  /** No key of `s` exceeds `v`. */
  predicate AtMost(s: seq<Stamp>, v: int) {
    forall i :: 0 <= i < |s| ==> Key(s[i]) <= v
  }

  lemma {:induction false} InsertAtMost(x: Stamp, sorted: seq<Stamp>, v: int)
    requires Key(x) <= v && AtMost(sorted, v)
    ensures AtMost(Insert(x, sorted), v)
    decreases |sorted|
  {
    if sorted != [] && Compare(x, sorted[0]) >= 0 {
      InsertAtMost(x, sorted[1..], v);
      var r := Insert(x, sorted);
      forall i | 0 <= i < |r| ensures Key(r[i]) <= v {
        if i > 0 {
          assert r[i] == Insert(x, sorted[1..])[i - 1];
        }
      }
    }
  }

  lemma {:induction false} InsertKeepsOrder(x: Stamp, sorted: seq<Stamp>)
    requires x.date.Some? && AllDated(sorted) && NewestFirst(sorted)
    ensures NewestFirst(Insert(x, sorted))
    decreases |sorted|
  {
    if sorted != [] && Compare(x, sorted[0]) >= 0 {
      var tail := sorted[1..];
      var rest := Insert(x, tail);
      assert AllDated(tail) && NewestFirst(tail);
      InsertKeepsOrder(x, tail);
      assert AtMost(tail, Key(sorted[0])) by {
        forall i | 0 <= i < |tail| ensures Key(tail[i]) <= Key(sorted[0]) {
          assert tail[i] == sorted[i + 1];
        }
      }
      InsertAtMost(x, tail, Key(sorted[0]));
      ConsNewestFirst(sorted[0], rest);
    }
  }

  lemma ConsNewestFirst(h: Stamp, rest: seq<Stamp>)
    requires NewestFirst(rest) && AtMost(rest, Key(h))
    ensures NewestFirst([h] + rest)
  {
    var r := [h] + rest;
    forall i, j | 0 <= i < j < |r|
      ensures Key(r[i]) >= Key(r[j])
    {
      assert r[j] == rest[j - 1];
      if i > 0 {
        assert r[i] == rest[i - 1];
      }
    }
  }

  lemma {:induction false} SortIsNewestFirst(s: seq<Stamp>)
    requires AllDated(s)
    ensures NewestFirst(SortNewestFirst(s))
    ensures AllDated(SortNewestFirst(s))
    decreases |s|
  {
    if s != [] {
      var init := s[..|s| - 1];
      assert AllDated(init);
      SortIsNewestFirst(init);
      InsertKeepsOrder(s[|s| - 1], SortNewestFirst(init));
      var r := SortNewestFirst(s);
      forall i | 0 <= i < |r|
        ensures r[i].date.Some?
      {
        assert r[i] in multiset(s);
      }
    }
  }

  /** `sorted.find(valid)?.date` */
  function FirstValid(sorted: seq<Stamp>): (d: Option<Timestamp>)
    ensures d.None? <==> forall i :: 0 <= i < |sorted| ==> !Valid(sorted[i])
    ensures d.Some? ==> exists i :: 0 <= i < |sorted| && Valid(sorted[i]) && sorted[i].date == d
    ensures d.Some? ==>
      exists i :: 0 <= i < |sorted| && Valid(sorted[i]) && sorted[i].date == d
                  && forall j :: 0 <= j < i ==> !Valid(sorted[j])
  {
    if sorted == [] then None
    else if Valid(sorted[0]) then sorted[0].date
    else
      var d := FirstValid(sorted[1..]);
      assert forall i :: 0 < i < |sorted| ==> sorted[i] == sorted[1..][i - 1];
      d
  }

  /** `getLastValidContactDate`: `null` for no communications, otherwise the
      date of the first valid communication of the sorted copy. */
  function LastValidDate(comms: seq<Stamp>): Option<Timestamp> {
    if |comms| == 0 then None else FirstValid(SortNewestFirst(comms))
  }

  /** There is no last valid date exactly when no communication is valid; a
      date found is the date of a valid communication. */
  lemma LastValidDateFound(comms: seq<Stamp>)
    ensures LastValidDate(comms).None? <==> forall i :: 0 <= i < |comms| ==> !Valid(comms[i])
    ensures LastValidDate(comms).Some? ==>
      exists i :: 0 <= i < |comms| && Valid(comms[i]) && comms[i].date == LastValidDate(comms)
  {
    var sorted := SortNewestFirst(comms);
    if comms != [] {
      var d := LastValidDate(comms);
      if d.Some? {
        var i :| 0 <= i < |sorted| && Valid(sorted[i]) && sorted[i].date == d;
        assert sorted[i] in multiset(comms);
      } else {
        forall i | 0 <= i < |comms|
          ensures !Valid(comms[i])
        {
          assert comms[i] in multiset(sorted);
        }
      }
    }
  }

  /** On a list sorted newest first, the first valid date is the newest
      valid date. */
  lemma FirstValidIsNewest(sorted: seq<Stamp>, k: nat)
    requires AllDated(sorted) && NewestFirst(sorted)
    requires k < |sorted| && Valid(sorted[k])
    ensures FirstValid(sorted).Some? && sorted[k].date.value <= FirstValid(sorted).value
  {
    var d := FirstValid(sorted);
    var f :| 0 <= f < |sorted| && Valid(sorted[f]) && sorted[f].date == d
             && forall j :: 0 <= j < f ==> !Valid(sorted[j]);
    assert f <= k;
    if f < k {
      assert Key(sorted[f]) >= Key(sorted[k]);
    }
  }

  /** When every communication is dated, the date found is the newest date
      of a valid communication. */
  lemma LastValidDateIsNewest(comms: seq<Stamp>)
    requires AllDated(comms)
    ensures forall i :: 0 <= i < |comms| && Valid(comms[i]) ==>
      LastValidDate(comms).Some? && comms[i].date.value <= LastValidDate(comms).value
  {
    if comms != [] {
      var sorted := SortNewestFirst(comms);
      SortIsNewestFirst(comms);
      forall i | 0 <= i < |comms| && Valid(comms[i])
        ensures LastValidDate(comms).Some? && comms[i].date.value <= LastValidDate(comms).value
      {
        assert comms[i] in multiset(sorted);
        var k :| 0 <= k < |sorted| && sorted[k] == comms[i];
        FirstValidIsNewest(sorted, k);
      }
    }
  }

  /** A presentation-side entry: its `type` is the placeholder method,
      truthy exactly when present. */
  function EntryStamp(e: CommunicationEntry): Stamp {
    Stamp(e.typeStub, e.date)
  }

  function EntryStamps(entries: seq<CommunicationEntry>): (r: seq<Stamp>)
    ensures |r| == |entries|
    ensures forall i :: 0 <= i < |r| ==> r[i] == EntryStamp(entries[i])
  {
    seq(|entries|, i requires 0 <= i < |entries| => EntryStamp(entries[i]))
  }

  /** The last-contacted date of a presentation-side contact, as the list
      cards and the reminders compute it: `lastContactedAt` when set,
      otherwise the newest valid communication date. */
  function LastContactedDate(c: TypesContact): (d: Option<Timestamp>)
    ensures c.lastContactedAt.Present? ==> d == Some(c.lastContactedAt.value)
    ensures !c.lastContactedAt.Present? ==> d == LastValidDate(EntryStamps(c.communications.GetOr([])))
  {
    if c.lastContactedAt.Present? then Some(c.lastContactedAt.value)
    else LastValidDate(EntryStamps(c.communications.GetOr([])))
  }

  /** No date is known exactly when `lastContactedAt` is unset and no
      communication has both a type and a date. */
  lemma NoDateIffNoValidCommunication(c: TypesContact)
    ensures LastContactedDate(c).None? <==>
      !c.lastContactedAt.Present?
      && forall e | e in c.communications.GetOr([]) :: !(e.typeStub && e.date.Some?)
  {
    var entries := c.communications.GetOr([]);
    LastValidDateFound(EntryStamps(entries));
    if !c.lastContactedAt.Present? && LastContactedDate(c).None? {
      forall e | e in entries
        ensures !(e.typeStub && e.date.Some?)
      {
        var i :| 0 <= i < |entries| && entries[i] == e;
        assert EntryStamps(entries)[i] == EntryStamp(e);
      }
    }
  }
}
