/** components/contact-details.tsx: the detail panel of the selected contact.
    It shows the contact through `contextToTypesContact`, saves edits by
    merging them over the stored contact, deletes, and derives the initials,
    the address line, the kids line and the last-contacted date. */
module ContactDetails {
  import opened Common
  import opened ContactTypes
  import opened ContactReducer
  import TypeAdapters
  import Recency

  // ---------------------------------------------------------------------------
  // getInitials

  /** `s.split(sep)`: the runs between separators, empty runs included. */
  function Split(s: string, sep: char): (parts: seq<string>)
    ensures |parts| >= 1
    ensures forall i :: 0 <= i < |parts| ==> sep !in parts[i]
    decreases |s|
  {
    if s == [] then [""]
    else
      var rest := Split(s[1..], sep);
      if s[0] == sep then [""] + rest
      else [[s[0]] + rest[0]] + rest[1..]
  }

  /** `parts.join(sep)` */
  function Join(parts: seq<string>, sep: char): string
    requires |parts| >= 1
    decreases |parts|
  {
    if |parts| == 1 then parts[0] else parts[0] + [sep] + Join(parts[1..], sep)
  }

  /** Joining what was split gives the text back. */
  lemma {:induction false} JoinSplit(s: string, sep: char)
    ensures Join(Split(s, sep), sep) == s
    decreases |s|
  {
    if s != [] {
      var rest := Split(s[1..], sep);
      JoinSplit(s[1..], sep);
      if s[0] == sep {
        assert ([""] + rest)[1..] == rest;
      } else if |rest| == 1 {
        assert Join(rest, sep) == rest[0];
      } else {
        assert Join(rest, sep) == rest[0] + [sep] + Join(rest[1..], sep);
        var parts := [[s[0]] + rest[0]] + rest[1..];
        assert parts[1..] == rest[1..];
      }
    }
  }

  /** Splitting a text that starts with a run free of separators. */
  lemma {:induction false} SplitPrefix(w: string, t: string, sep: char)
    requires sep !in w
    ensures Split(w + t, sep) == [w + Split(t, sep)[0]] + Split(t, sep)[1..]
    decreases |w|
  {
    if w != [] {
      assert (w + t)[0] == w[0];
      assert (w + t)[1..] == w[1..] + t;
      SplitPrefix(w[1..], t, sep);
      assert [w[0]] + (w[1..] + Split(t, sep)[0]) == w + Split(t, sep)[0];
    } else {
      var parts := Split(t, sep);
      assert w + t == t && w + parts[0] == parts[0];
      assert [parts[0]] + parts[1..] == parts;
    }
  }

  /** Splitting what was joined gives the parts back, when no part holds
      the separator. */
  lemma {:induction false} SplitJoin(parts: seq<string>, sep: char)
    requires |parts| >= 1
    requires forall i :: 0 <= i < |parts| ==> sep !in parts[i]
    ensures Split(Join(parts, sep), sep) == parts
    decreases |parts|
  {
    if |parts| == 1 {
      SplitPrefix(parts[0], "", sep);
      assert parts[0] + "" == parts[0];
    } else {
      var tail := Join(parts[1..], sep);
      SplitJoin(parts[1..], sep);
      assert Split([sep] + tail, sep) == [""] + parts[1..] by {
        assert ([sep] + tail)[1..] == tail;
      }
      assert parts[0] + [sep] + tail == parts[0] + ([sep] + tail);
      SplitPrefix(parts[0], [sep] + tail, sep);
      assert parts[0] + "" == parts[0];
    }
  }

  /** `.map(n => n[0]).join("")`: an empty run contributes `undefined`, which
      `join` renders as "". */
  function FirstChars(parts: seq<string>): (r: string)
    ensures |r| <= |parts|
    decreases |parts|
  {
    if parts == [] then ""
    else (if parts[0] == "" then "" else [parts[0][0]]) + FirstChars(parts[1..])
  }

  /** `getInitials`: the upper-cased first characters of the words, cut to two. */
  function GetInitials(name: string): (r: string)
    ensures |r| <= 2
    ensures forall i :: 0 <= i < |r| ==> !('a' <= r[i] <= 'z')
  {
    var letters := ToUpper(FirstChars(Split(name, ' ')));
    letters[..if |letters| < 2 then |letters| else 2]
  }

  /** A one-word name gives its upper-cased first letter. */
  lemma OneWordInitials(w: string)
    requires w != [] && ' ' !in w
    ensures GetInitials(w) == [UpperChar(w[0])]
  {
    SplitJoin([w], ' ');
    assert FirstChars([w]) == [w[0]];
  }

  /** A two-word name gives the upper-cased first letters of both words. */
  lemma TwoWordInitials(a: string, b: string)
    requires a != [] && b != [] && ' ' !in a && ' ' !in b
    ensures GetInitials(a + " " + b) == [UpperChar(a[0]), UpperChar(b[0])]
  {
    SplitJoin([a, b], ' ');
    assert Join([a, b], ' ') == a + " " + b;
    assert FirstChars([a, b]) == [a[0], b[0]] by {
      assert [a, b][1..] == [b];
    }
  }

  // ---------------------------------------------------------------------------
  // Saving and deleting

  /** The panel's own state. */
  datatype DetailsView = DetailsView(isEditing: bool, isDeleteDialogOpen: bool)

  /** What a handler dispatches and the panel state it leaves. */
  datatype Handled = Handled(action: Action, view: DetailsView)

  /** The store contact `handleSaveContact` builds: the edited contact, with
      id, creation date, communications and last-contacted date taken from
      the stored one, converted back with `typesToContextContact`. */
  function SavedContact(stored: Contact, edited: TypesContact): Contact {
    var shown := TypeAdapters.ContextToTypesContact(stored);
    var merged := edited.(
      id := stored.id,
      createdAt := stored.createdAt,
      communications := Some(shown.communications.GetOr([])),
      lastContactedAt := match stored.lastContactedAt case Some(d) => Present(d) case None => Null);
    TypeAdapters.TypesToContextContact(merged)
  }

  /** Id, creation date and last-contacted date are the stored contact's,
      whatever the edit form returned. */
  lemma SaveKeepsIdentity(stored: Contact, edited: TypesContact)
    ensures var c := SavedContact(stored, edited);
      c.id == stored.id && c.createdAt == stored.createdAt && c.lastContactedAt == stored.lastContactedAt
  {
  }

  /** The edited texts are what is saved. */
  lemma SaveKeepsEdits(stored: Contact, edited: TypesContact)
    ensures var c := SavedContact(stored, edited);
      c.name == edited.name && c.role == edited.role && c.status == edited.status
      && c.category == edited.category && c.description == edited.description
      && c.phoneNumber == edited.phoneNumber && c.email == edited.email
  {
  }

  /** The stored communications are kept, one for one, with id, notes and
      date; a single type comes back as a one-element list. */
  lemma SaveKeepsCommunications(stored: Contact, edited: TypesContact)
    ensures var c := SavedContact(stored, edited);
      c.communications.Some? && |c.communications.value| == |stored.communications.GetOr([])|
      && forall i :: 0 <= i < |c.communications.value| ==>
           var before, after := stored.communications.value[i], c.communications.value[i];
           after.id == before.id && after.notes == before.notes && after.date == before.date
           && after.kind == TypeList(TypeAdapters.TypeListOf(before.kind))
  {
  }

  /** `handleSaveContact`: one UPDATE_CONTACT with the merged contact, and the
      edit form closes. */
  function HandleSaveContact(stored: Contact, edited: TypesContact, view: DetailsView): (r: Handled)
    ensures r.action.UpdateContact? && r.action.contact.id == stored.id
    ensures !r.view.isEditing && r.view.isDeleteDialogOpen == view.isDeleteDialogOpen
  {
    SaveKeepsIdentity(stored, edited);
    Handled(UpdateContact(SavedContact(stored, edited)), view.(isEditing := false))
  }

  /** `handleDeleteConfirm`: DELETE_CONTACT with the shown contact's id, which
      is the stored one, and the dialog closes. */
  function HandleDeleteConfirm(stored: Contact, view: DetailsView): (r: Handled)
    ensures r.action == DeleteContact(stored.id)
    ensures !r.view.isDeleteDialogOpen && r.view.isEditing == view.isEditing
  {
    var contact := TypeAdapters.ContextToTypesContact(stored);
    Handled(DeleteContact(contact.id), view.(isDeleteDialogOpen := false))
  }

  // ---------------------------------------------------------------------------
  // Last contacted

  /** A store communication's type is valid when it is a non-empty list or a
      single value (every type value is a non-empty string). */
  predicate ValidKind(kind: CommTypes) {
    match kind
    case OneType(_) => true
    case TypeList(ts) => |ts| > 0
  }

  /** Store communications always carry a date. */
  function CommStamps(comms: seq<Communication>): (r: seq<Recency.Stamp>)
    ensures |r| == |comms| && Recency.AllDated(r)
    ensures forall i :: 0 <= i < |r| ==> r[i].validType == ValidKind(comms[i].kind)
    ensures forall i :: 0 <= i < |r| ==> r[i].date == Some(comms[i].date)
  {
    seq(|comms|, i requires 0 <= i < |comms| => Recency.Stamp(ValidKind(comms[i].kind), Some(comms[i].date)))
  }

  /** `lastContactedDate`: the stored `lastContactedAt`, otherwise
      `getLastValidContactDate` over the stored communications. */
  function LastContactedDate(stored: Contact): Option<Timestamp> {
    if stored.lastContactedAt.Some? then stored.lastContactedAt
    else Recency.LastValidDate(CommStamps(stored.communications.GetOr([])))
  }

  /** "Never contacted" is shown exactly when there is no `lastContactedAt`
      and no communication with a valid type. */
  lemma NeverContactedIff(stored: Contact)
    ensures LastContactedDate(stored).None? <==>
      stored.lastContactedAt.None?
      && forall i :: 0 <= i < |stored.communications.GetOr([])| ==> !ValidKind(stored.communications.value[i].kind)
  {
    var stamps := CommStamps(stored.communications.GetOr([]));
    Recency.LastValidDateFound(stamps);
    assert forall i :: 0 <= i < |stamps| ==> (Recency.Valid(stamps[i]) <==> stamps[i].validType);
  }

  /** Without `lastContactedAt`, the date shown is the newest date of a
      communication with a valid type. */
  lemma LastContactedIsNewest(stored: Contact)
    requires stored.lastContactedAt.None?
    ensures forall i :: 0 <= i < |stored.communications.GetOr([])| && ValidKind(stored.communications.value[i].kind) ==>
      LastContactedDate(stored).Some? && stored.communications.value[i].date <= LastContactedDate(stored).value
  {
    var stamps := CommStamps(stored.communications.GetOr([]));
    Recency.LastValidDateIsNewest(stamps);
    assert forall i :: 0 <= i < |stamps| ==> (Recency.Valid(stamps[i]) <==> stamps[i].validType);
  }

  // ---------------------------------------------------------------------------
  // Address and kids lines

  /** `part && `${part}, ``: a set part followed by a comma. */
  function AddressPart(part: Option<string>): (r: string)
    ensures Truthy(part) ==> r == part.value + ", "
    ensures !Truthy(part) ==> r == ""
  {
    if Truthy(part) then part.value + ", " else ""
  }

  /** The address line: the set parts of street, city, state and zip code,
      each followed by ", ", then the country or "Not specified". */
  function AddressLine(a: TypesAddress): (r: string)
    ensures var country := OrElse(a.country, "Not specified");
      |r| >= |country| && r[|r| - |country|..] == country
    ensures Truthy(a.street) ==> |r| >= |a.street.value| + 2 && r[..|a.street.value| + 2] == a.street.value + ", "
  {
    var rest := AddressPart(a.city) + AddressPart(a.state) + AddressPart(a.zipCode);
    var country := OrElse(a.country, "Not specified");
    AppendSlices(AddressPart(a.street) + rest, country);
    AppendSlices(AddressPart(a.street), rest + country);
    AddressPart(a.street) + rest + country
  }

  lemma AppendSlices(x: string, y: string)
    ensures (x + y)[..|x|] == x && (x + y)[|x|..] == y
  {
  }

  /** An address with no part set reads "Not specified". */
  lemma EmptyAddressLine()
    ensures AddressLine(TypesAddress(None, None, None, None, None)) == "Not specified"
  {
  }

  /** A stored address part as the panel shows it: nothing when it is "",
      otherwise the part and ", ". */
  function StoredPart(part: string): string {
    if part == "" then "" else part + ", "
  }

  /** The address of any stored contact as the panel shows it: its non-empty
      street, city, state and zip code, each followed by ", ", then its
      country, or "Not specified" when the country is "". */
  lemma StoredAddressLine(stored: Contact)
    ensures var a := stored.address;
      AddressLine(TypeAdapters.ContextToTypesContact(stored).address)
        == StoredPart(a.street) + (StoredPart(a.city) + StoredPart(a.state) + StoredPart(a.zipCode))
           + (if a.country == "" then "Not specified" else a.country)
  {
    var t := TypeAdapters.ContextToTypesContact(stored).address;
    assert t == TypeAdapters.ContextToTypesAddress(Some(stored.address));
    ConvertedAddressLine(stored.address, t);
  }

  lemma ConvertedAddressLine(a: Address, t: TypesAddress)
    requires t == TypeAdapters.ContextToTypesAddress(Some(a))
    ensures AddressLine(t)
        == StoredPart(a.street) + (StoredPart(a.city) + StoredPart(a.state) + StoredPart(a.zipCode))
           + (if a.country == "" then "Not specified" else a.country)
  {
    StoredPartShown(a.street, t.street);
    StoredPartShown(a.city, t.city);
    StoredPartShown(a.state, t.state);
    StoredPartShown(a.zipCode, t.zipCode);
    var country := OrElse(t.country, "Not specified");
    assert country == (if a.country == "" then "Not specified" else a.country);
    var rest := AddressPart(t.city) + AddressPart(t.state) + AddressPart(t.zipCode);
    assert rest == StoredPart(a.city) + StoredPart(a.state) + StoredPart(a.zipCode);
    assert AddressLine(t) == AddressPart(t.street) + rest + country;
  }

  /** A part converted by `contextToTypesAddress` renders as the stored part. */
  lemma StoredPartShown(part: string, converted: Option<string>)
    requires converted == NonEmpty(Some(part))
    ensures AddressPart(converted) == StoredPart(part)
  {
  }

  /** `Yes (${numberOfKids})` or "No"; an unset number renders as
      "undefined". */
  function KidsText(hasKids: bool, numberOfKids: Option<int>): (r: string)
    ensures r == "No" <==> !hasKids
    ensures hasKids ==> |r| > 6 && r[..5] == "Yes (" && r[|r| - 1] == ')'
    ensures hasKids && numberOfKids.Some? ==> r[5..|r| - 1] == IntToString(numberOfKids.value)
    ensures hasKids && numberOfKids.None? ==> r[5..|r| - 1] == "undefined"
  {
    if hasKids then
      var count := match numberOfKids case Some(n) => IntToString(n) case None => "undefined";
      var r := "Yes (" + count + ")";
      assert r[0] == 'Y';
      r
    else "No"
  }

  /** The marital status row is shown only for the "Woman" category and a set
      value. */
  predicate MaritalStatusShown(c: TypesContact) {
    c.category == "Woman" && Truthy(c.maritalStatus)
  }

  lemma MaritalStatusOnlyForWomen(c: TypesContact)
    ensures MaritalStatusShown(c) <==> c.category == Woman.Value() && c.maritalStatus.Some? && c.maritalStatus.value != ""
  {
  }
}
