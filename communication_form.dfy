/** components/communication-form.tsx: the form that logs a communication.
    The chosen types, the notes and the contact date are component state;
    submitting hands them to `onSave` and resets the form. */
module CommunicationForm {
  import opened Common
  import opened ContactTypes

  /** `handleTypeToggle`'s new list: the type is removed when selected,
      appended otherwise. */
  function Toggle(types: seq<CommunicationType>, t: CommunicationType): (r: seq<CommunicationType>)
    ensures t in types ==> t !in r && forall x :: x != t ==> (x in r <==> x in types)
    ensures t !in types ==> r == types + [t]
  {
    if t in types then
      var kept := Filter(types, x => x != t);
      assert forall i :: 0 <= i < |types| && types[i] != t ==> types[i] in kept;
      kept
    else types + [t]
  }

  /** A type is selected after the toggle exactly when it was not before. */
  lemma ToggleFlips(types: seq<CommunicationType>, t: CommunicationType)
    ensures t in Toggle(types, t) <==> t !in types
  {
  }

  /** Toggling a type that was not selected, twice, gives the list back. */
  lemma ToggleTwiceRestoresAbsent(types: seq<CommunicationType>, t: CommunicationType)
    requires t !in types
    ensures Toggle(Toggle(types, t), t) == types
  {
    FilterAppend(types, [t], x => x != t);
    FilterKeepsAll(types, x => x != t);
  }

  /** Toggling a selected type twice keeps the same set of types, but moves
      that type to the end of the list. */
  lemma ToggleTwiceMovesPresent(types: seq<CommunicationType>, t: CommunicationType)
    requires t in types
    ensures Toggle(Toggle(types, t), t) == Filter(types, x => x != t) + [t]
    ensures forall x :: x in Toggle(Toggle(types, t), t) <==> x in types
  {
  }

  /** The list `[Call, Video]` with Call toggled twice reads `[Video, Call]`. */
  lemma ToggleTwiceReorders()
    ensures Toggle(Toggle([Call, Video], Call), Call) == [Video, Call]
  {
    assert Call in [Call, Video];
    assert Filter([Call, Video], x => x != Call) == [Video] by {
      assert [Call, Video][1..] == [Video];
      assert [Video][1..] == [];
    }
    assert Call !in [Video];
  }

  lemma {:induction false} FilterKeepsAll<T>(s: seq<T>, p: T -> bool)
    requires forall i :: 0 <= i < |s| ==> p(s[i])
    ensures Filter(s, p) == s
    decreases |s|
  {
    if s != [] {
      FilterKeepsAll(s[1..], p);
    }
  }

  predicate NoDuplicates<T(==)>(s: seq<T>) {
    forall i, j :: 0 <= i < j < |s| ==> s[i] != s[j]
  }

  lemma {:induction false} FilterNoDuplicates<T>(s: seq<T>, p: T -> bool)
    requires NoDuplicates(s)
    ensures NoDuplicates(Filter(s, p))
    decreases |s|
  {
    if s != [] {
      var rest := Filter(s[1..], p);
      FilterNoDuplicates(s[1..], p);
      if p(s[0]) {
        assert s[0] !in s[1..] by {
          forall i | 0 <= i < |s[1..]|
            ensures s[1..][i] != s[0]
          {
            assert s[1..][i] == s[i + 1];
          }
        }
        assert s[0] !in rest;
        var r := [s[0]] + rest;
        forall i, j | 0 <= i < j < |r|
          ensures r[i] != r[j]
        {
          if i == 0 {
            assert r[j] == rest[j - 1];
          } else {
            assert r[i] == rest[i - 1] && r[j] == rest[j - 1];
          }
        }
      }
    }
  }

  /** A toggle never introduces a duplicate. */
  lemma ToggleKeepsNoDuplicates(types: seq<CommunicationType>, t: CommunicationType)
    requires NoDuplicates(types)
    ensures NoDuplicates(Toggle(types, t))
  {
    if t in types {
      FilterNoDuplicates(types, x => x != t);
    }
  }

  /** One call of `onSave`: the types, the notes and the contact date. */
  datatype SaveCall = SaveCall(types: seq<CommunicationType>, notes: string, date: Option<Timestamp>)

  class CommunicationFormView {
    var selectedTypes: seq<CommunicationType>
    var notes: string
    var contactDate: Option<Timestamp>
    /** The `onSave` calls, in order. */
    var saved: seq<SaveCall>

    /** The chosen types never repeat, and nothing without a type was saved. */
    ghost predicate Valid()
      reads this
    {
      NoDuplicates(selectedTypes) && forall i :: 0 <= i < |saved| ==> saved[i].types != []
    }

    /** The form opens with no type, no notes and today as the contact date. */
    constructor(now: Timestamp)
      ensures Valid()
      ensures selectedTypes == [] && notes == "" && contactDate == Some(now) && saved == []
    {
      selectedTypes := [];
      notes := "";
      contactDate := Some(now);
      saved := [];
    }

    method HandleTypeToggle(t: CommunicationType)
      requires Valid()
      modifies this
      ensures Valid()
      ensures selectedTypes == Toggle(old(selectedTypes), t)
      ensures notes == old(notes) && contactDate == old(contactDate) && saved == old(saved)
    {
      ToggleKeepsNoDuplicates(selectedTypes, t);
      if t in selectedTypes {
        selectedTypes := Filter(selectedTypes, x => x != t);
      } else {
        selectedTypes := selectedTypes + [t];
      }
    }

    /** The notes and date inputs write their state. */
    method SetNotes(value: string)
      requires Valid()
      modifies this
      ensures Valid()
      ensures notes == value
      ensures selectedTypes == old(selectedTypes) && contactDate == old(contactDate) && saved == old(saved)
    {
      notes := value;
    }

    method SetContactDate(date: Option<Timestamp>)
      requires Valid()
      modifies this
      ensures Valid()
      ensures contactDate == date
      ensures selectedTypes == old(selectedTypes) && notes == old(notes) && saved == old(saved)
    {
      contactDate := date;
    }

    /** `handleSubmit`: without a type nothing happens; otherwise `onSave`
        gets the types, the notes and the date, and the form is reset. */
    method HandleSubmit(now: Timestamp)
      requires Valid()
      modifies this
      ensures Valid()
      ensures old(selectedTypes) == [] ==>
        selectedTypes == old(selectedTypes) && notes == old(notes) && contactDate == old(contactDate) && saved == old(saved)
      ensures old(selectedTypes) != [] ==>
        saved == old(saved) + [SaveCall(old(selectedTypes), old(notes), old(contactDate))]
        && selectedTypes == [] && notes == "" && contactDate == Some(now)
    {
      if |selectedTypes| == 0 {
        return;
      }
      saved := saved + [SaveCall(selectedTypes, notes, contactDate)];
      selectedTypes := [];
      notes := "";
      contactDate := Some(now);
    }
  }
}
