/** lib/type-adapters.ts: the converters between the store-side contact
    (`ContactReducer.Contact`) and the presentation-side contact
    (`ContactTypes.TypesContact`). */
module TypeAdapters {
  import opened Common
  import opened ContactTypes
  import opened ContactReducer

  /** `contextToTypesAddress`: empty parts become `undefined`; a missing
      address gives an address with every part `undefined`. */
  function ContextToTypesAddress(address: Option<Address>): (r: TypesAddress)
    ensures address.None? ==> r == TypesAddress(None, None, None, None, None)
    ensures address.Some? ==>
      var a := address.value;
      (r.street.Some? <==> a.street != "") && (r.city.Some? <==> a.city != "")
      && (r.state.Some? <==> a.state != "") && (r.zipCode.Some? <==> a.zipCode != "")
      && (r.country.Some? <==> a.country != "")
    ensures address.Some? ==> NoEmptyPart(r)
  {
    match address
    case None => TypesAddress(None, None, None, None, None)
    case Some(a) =>
      TypesAddress(NonEmpty(Some(a.street)), NonEmpty(Some(a.city)), NonEmpty(Some(a.state)),
                   NonEmpty(Some(a.zipCode)), NonEmpty(Some(a.country)))
  }

  /** No part of the address is present but empty. */
  predicate NoEmptyPart(a: TypesAddress) {
    Truthy(a.street) == a.street.Some? && Truthy(a.city) == a.city.Some?
    && Truthy(a.state) == a.state.Some? && Truthy(a.zipCode) == a.zipCode.Some?
    && Truthy(a.country) == a.country.Some?
  }

  /** `typesToContextAddress`: missing parts become ""; a missing address
      gives an address with every part "". */
  function TypesToContextAddress(address: Option<TypesAddress>): (r: Address)
    ensures address.None? ==> r == Address("", "", "", "", "")
    ensures address.Some? ==>
      var a := address.value;
      r.street == a.street.GetOr("") && r.city == a.city.GetOr("") && r.state == a.state.GetOr("")
      && r.zipCode == a.zipCode.GetOr("") && r.country == a.country.GetOr("")
  {
    match address
    case None => Address("", "", "", "", "")
    case Some(a) =>
      Address(OrElse(a.street, ""), OrElse(a.city, ""), OrElse(a.state, ""),
              OrElse(a.zipCode, ""), OrElse(a.country, ""))
  }

  /** A store address survives the trip to the presentation shape and back. */
  lemma AddressRoundTrip(a: Address)
    ensures TypesToContextAddress(Some(ContextToTypesAddress(Some(a)))) == a
  {
  }

  /** A presentation address without empty parts survives the opposite trip. */
  lemma TypesAddressRoundTrip(a: TypesAddress)
    requires NoEmptyPart(a)
    ensures ContextToTypesAddress(Some(TypesToContextAddress(Some(a)))) == a
  {
  }

  /** `String(age)`; an age number is an integer here. */
  function AgeString(age: AgeValue): string {
    match age
    case AgeNumber(n) => IntToString(n)
    case AgeText(s) => s
  }

  /** `contextToTypesAge`: a missing age stays missing, any other age becomes its string. */
  function ContextToTypesAge(age: Option<AgeValue>): (r: Option<AgeValue>)
    ensures r.None? <==> age.None?
    ensures r.Some? ==> r.value.AgeText? && r.value.s == AgeString(age.value)
  {
    match age
    case None => None
    case Some(a) => Some(AgeText(AgeString(a)))
  }

  /** `Number(s)` on the strings the model reads as numbers: an optional sign
      followed by one or more decimal digits. Every other string is `NaN`
      (`None`). */
  function ParseNumber(s: string): (r: Option<int>)
    ensures s == [] ==> r.None?
    ensures r.Some? && r.value < 0 ==> s[0] == '-'
  {
    if |s| > 1 && (s[0] == '-' || s[0] == '+') && AllDigits(s[1..]) then
      var magnitude: int := DigitsValue(s[1..]);
      Some(if s[0] == '-' then -magnitude else magnitude)
    else if s != [] && AllDigits(s) then Some(DigitsValue(s))
    else None
  }

  /** `String(n)` reads back as `n`. */
  lemma ParseIntToString(n: int)
    ensures ParseNumber(IntToString(n)) == Some(n)
  {
    var s := IntToString(n);
    if n < 0 {
      assert s[1..] == NatToString(-n);
      DigitsValueOfNatToString(-n);
    } else {
      DigitsValueOfNatToString(n);
      assert IsDigit(s[0]);
    }
  }

  /** `typesToContextAge`: missing or "" gives `undefined`, a numeric string its
      number, anything else (`NaN`) `undefined`; a number is kept. */
  function TypesToContextAge(age: Option<AgeValue>): (r: Option<AgeValue>)
    ensures (age.None? || age == Some(AgeText(""))) ==> r.None?
    ensures r.Some? ==> r.value.AgeNumber?
    ensures age.Some? && age.value.AgeNumber? ==> r == age
    ensures age.Some? && age.value.AgeText? ==>
      (r.Some? <==> ParseNumber(age.value.s).Some?)
      && (r.Some? ==> r.value.n == ParseNumber(age.value.s).value)
  {
    match age
    case None => None
    case Some(AgeNumber(n)) => Some(AgeNumber(n))
    case Some(AgeText(s)) =>
      if s == "" then None
      else match ParseNumber(s)
        case None => None
        case Some(n) => Some(AgeNumber(n))
  }

  /** Every integer age survives the trip through its string. */
  lemma AgeRoundTrip(n: int)
    ensures TypesToContextAge(ContextToTypesAge(Some(AgeNumber(n)))) == Some(AgeNumber(n))
  {
    ParseIntToString(n);
  }

  /** A numeric text age comes back as its number; a non-numeric one is dropped. */
  lemma TextAgeRoundTrip(s: string)
    ensures TypesToContextAge(ContextToTypesAge(Some(AgeText(s)))) ==
      match ParseNumber(s) case Some(n) => Some(AgeNumber(n)) case None => None
  {
  }

  /** The type list a store communication stands for. */
  function TypeListOf(kind: CommTypes): seq<CommunicationType> {
    match kind
    case OneType(t) => [t]
    case TypeList(ts) => ts
  }

  /** `contextToTypesCommunication`: one type is wrapped in a list, the date is
      copied to `timestamp` and `date`, and the `type` placeholder is attached. */
  function ContextToTypesCommunication(comm: Communication): (e: CommunicationEntry)
    ensures e.id == comm.id && e.notes == comm.notes
    ensures e.timestamp == comm.date && e.date == Some(comm.date)
    ensures comm.kind.OneType? ==> e.types == [comm.kind.t]
    ensures comm.kind.TypeList? ==> e.types == comm.kind.ts
    ensures e.typeStub
  {
    CommunicationEntry(comm.id, TypeListOf(comm.kind), comm.notes, comm.date, Some(comm.date), true)
  }

  /** `typesToContextCommunication`: the type list becomes `type`, the
      timestamp becomes the date. */
  function TypesToContextCommunication(entry: CommunicationEntry): (c: Communication)
    ensures c.id == entry.id && c.notes == entry.notes && c.date == entry.timestamp
    ensures c.kind == TypeList(entry.types)
  {
    Communication(entry.id, TypeList(entry.types), entry.notes, entry.timestamp)
  }

  /** The trip keeps id, notes and date, and the type list of a list-typed
      communication; a single type comes back as a one-element list. */
  lemma CommunicationRoundTrip(c: Communication)
    ensures var back := TypesToContextCommunication(ContextToTypesCommunication(c));
      back.id == c.id && back.notes == c.notes && back.date == c.date
      && back.kind == TypeList(TypeListOf(c.kind))
      && (c.kind.TypeList? ==> back == c)
  {
  }

  function MapToTypes(comms: seq<Communication>): (r: seq<CommunicationEntry>)
    ensures |r| == |comms|
    ensures forall i :: 0 <= i < |r| ==> r[i] == ContextToTypesCommunication(comms[i])
  {
    seq(|comms|, i requires 0 <= i < |comms| => ContextToTypesCommunication(comms[i]))
  }

  function MapToContext(entries: seq<CommunicationEntry>): (r: seq<Communication>)
    ensures |r| == |entries|
    ensures forall i :: 0 <= i < |r| ==> r[i] == TypesToContextCommunication(entries[i])
  {
    seq(|entries|, i requires 0 <= i < |entries| => TypesToContextCommunication(entries[i]))
  }

  /** `contextToTypesContact`. Both communication lists are the converted
      communications ([] when there are none), and `lastContactedAt` is `null`
      whatever the store contact holds. The bookkeeping flags are not copied. */
  function ContextToTypesContact(c: Contact): (t: TypesContact)
    ensures t.lastContactedAt == Null
    ensures t.communications == t.communicationHistory
    ensures t.communications.Some?
    ensures c.communications.None? ==> t.communications == Some([])
    ensures c.communications.Some? ==> |t.communications.value| == |c.communications.value|
    ensures t.address == ContextToTypesAddress(Some(c.address))
    ensures t.age == ContextToTypesAge(c.age)
    ensures t.id == c.id && t.name == c.name && t.status == c.status && t.category == c.category
    ensures t.synced.None? && t.deleted.None?
  {
    var comms := Some(MapToTypes(c.communications.GetOr([])));
    TypesContact(
      comms, Null, c.id, c.name, c.role, c.status, c.category, c.description,
      c.picture, c.birthday, ContextToTypesAge(c.age), ContextToTypesAddress(Some(c.address)),
      c.hasKids, c.numberOfKids, c.maritalStatus, c.additionalDetails, comms,
      c.createdAt, c.updatedAt, c.phoneNumber, c.email, c.contactType, c.contactDate, None, None)
  }

  /** `typesToContextContact`. `communications` wins whenever it is present,
      even when empty; `communicationHistory` is read only when it is absent;
      an undefined `lastContactedAt` becomes `null`. */
  function TypesToContextContact(t: TypesContact): (c: Contact)
    ensures t.communications.Some? ==> c.communications == Some(MapToContext(t.communications.value))
    ensures t.communications.None? && t.communicationHistory.Some? ==>
      c.communications == Some(MapToContext(t.communicationHistory.value))
    ensures t.communications.None? && t.communicationHistory.None? ==> c.communications == Some([])
    ensures t.lastContactedAt.Present? <==> c.lastContactedAt.Some?
    ensures t.lastContactedAt.Present? ==> c.lastContactedAt.value == t.lastContactedAt.value
    ensures c.address == TypesToContextAddress(Some(t.address))
    ensures c.age == TypesToContextAge(t.age)
    ensures c.id == t.id && c.name == t.name && c.status == t.status && c.category == t.category
    ensures c.synced.None? && c.deleted.None?
  {
    var comms :=
      if t.communications.Some? then MapToContext(t.communications.value)
      else if t.communicationHistory.Some? then MapToContext(t.communicationHistory.value)
      else [];
    var last := match t.lastContactedAt case Present(d) => Some(d) case _ => None;
    Contact(
      t.id, t.name, t.role, t.status, t.category, t.description, t.picture, t.birthday,
      TypesToContextAge(t.age), TypesToContextAddress(Some(t.address)), t.hasKids, t.numberOfKids,
      t.maritalStatus, t.additionalDetails, Some(comms), last, t.createdAt, t.updatedAt,
      t.phoneNumber, t.email, t.contactType, t.contactDate, None, None)
  }

  /** What survives the trip from the store shape to the presentation shape
      and back: every field but `lastContactedAt` (always lost), the age
      (turned into its number), the communications (each single type
      becomes a one-element list) and the bookkeeping flags (dropped). */
  lemma ContactRoundTrip(c: Contact)
    ensures var back := TypesToContextContact(ContextToTypesContact(c));
      back == c.(lastContactedAt := None, age := back.age, communications := back.communications,
                 synced := None, deleted := None)
      && back.lastContactedAt.None?
      && (c.age.Some? && c.age.value.AgeNumber? ==> back.age == c.age)
      && back.communications.Some?
      && |back.communications.value| == |c.communications.GetOr([])|
  {
    var back := TypesToContextContact(ContextToTypesContact(c));
    if c.age.Some? && c.age.value.AgeNumber? {
      AgeRoundTrip(c.age.value.n);
    }
    AddressRoundTrip(c.address);
  }

  /** Each communication of the round trip is the round trip of the original. */
  lemma ContactRoundTripCommunications(c: Contact, i: int)
    requires 0 <= i < |c.communications.GetOr([])|
    ensures var back := TypesToContextContact(ContextToTypesContact(c));
      back.communications.Some? && |back.communications.value| == |c.communications.GetOr([])|
      && back.communications.value[i] == TypesToContextCommunication(ContextToTypesCommunication(c.communications.value[i]))
  {
  }
}
