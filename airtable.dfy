/** The pure helpers of lib/airtable.ts: reading the enumerations out of
    Airtable field values, turning an Airtable record into a contact or a
    communication, and building the field map sent when a contact is created
    or updated (with its undefined keys deleted). */
module Airtable {
  import opened Common
  import opened ContactTypes
  import TypeAdapters

  /** A value an Airtable field can hold. `Date` is a date field (or an ISO date
      string), `Items` a multiple-select list. */
  datatype FieldValue =
    | Text(s: string)
    | Number(n: int)
    | Flag(b: bool)
    | Date(t: Timestamp)
    | Items(items: seq<string>)

  /** The record keys the helpers read or write, with their Airtable names.
      `Birthday` is not a column of the schema; `airtableToContact` reads it
      by mistake (see `BirthdayAsWritten`). */
  datatype FieldName =
    | NameField
    | RoleField
    | StatusField
    | CategoryField
    | DescriptionField
    | BirthdayField
    | CapitalBirthdayField
    | AgeField
    | AddressField
    | HasKidsField
    | NumberOfKidsField
    | MaritalStatusField
    | AdditionalDetailsField
    | LastContactedAtField
    | CreatedAtField
    | UpdatedAtField
    | PhoneField
    | EmailField
    | ContactTypeField
    | ContactDateField
    | TypeField
    | NotesField
    | DateField
  {
    function Key(): string {
      match this
      case NameField => "name"
      case RoleField => "role"
      case StatusField => "status"
      case CategoryField => "category"
      case DescriptionField => "description"
      case BirthdayField => "birthday"
      case CapitalBirthdayField => "Birthday"
      case AgeField => "age"
      case AddressField => "address"
      case HasKidsField => "has kids"
      case NumberOfKidsField => "number of kids"
      case MaritalStatusField => "marital status"
      case AdditionalDetailsField => "additional details"
      case LastContactedAtField => "last contacted at"
      case CreatedAtField => "created at"
      case UpdatedAtField => "updated at"
      case PhoneField => "phone"
      case EmailField => "email"
      case ContactTypeField => "contact type"
      case ContactDateField => "contact date"
      case TypeField => "type"
      case NotesField => "notes"
      case DateField => "date"
    }
  }

  /** The fields of a stored record: a key is absent when the field is empty. */
  type Fields = map<FieldName, FieldValue>

  datatype AirtableRecord = AirtableRecord(id: string, fields: Fields)

  function Get(fields: Fields, key: FieldName): (v: Option<FieldValue>)
    ensures v.Some? <==> key in fields
  {
    if key in fields then Some(fields[key]) else None
  }

  /** JavaScript truthiness of a field value. */
  predicate FieldTruthy(v: Option<FieldValue>) {
    match v
    case None => false
    case Some(Text(s)) => s != ""
    case Some(Number(n)) => n != 0
    case Some(Flag(b)) => b
    case Some(Date(_)) => true
    case Some(Items(_)) => true
  }

  function JoinComma(parts: seq<string>): string {
    if parts == [] then "" else if |parts| == 1 then parts[0] else parts[0] + "," + JoinComma(parts[1..])
  }

  /** `String(value)`; `String(undefined)` is "undefined". */
  function FieldString(v: Option<FieldValue>): string {
    match v
    case None => "undefined"
    case Some(Text(s)) => s
    case Some(Number(n)) => IntToString(n)
    case Some(Flag(b)) => if b then "true" else "false"
    case Some(Date(t)) => IntToString(t)
    case Some(Items(items)) => JoinComma(items)
  }

  /** `String(value || "")` */
  function StringOr(v: Option<FieldValue>): (r: string)
    ensures !FieldTruthy(v) ==> r == ""
    ensures v.Some? && v.value.Text? ==> r == v.value.s
  {
    if FieldTruthy(v) then FieldString(v) else ""
  }

  // ---------------------------------------------------------------------
  // Enumerations

  /** `toContactStatus` as written: the upper-cased input is compared with
      mixed-case literals, none of which an upper-cased string can equal. */
  function ToContactStatusAsWritten(status: Option<FieldValue>): ContactStatus {
    if !FieldTruthy(status) then Active
    else
      var statusStr := ToUpper(FieldString(status));
      if statusStr == "Active" then Active
      else if statusStr == "Inactive" then Inactive
      else if statusStr == "Pending" then Pending
      else if statusStr == "Blocked" then Blocked
      else Active
  }

  lemma UpperCharIsNotLower(c: char)
    ensures !('a' <= UpperChar(c) <= 'z')
  {
  }

  /** Whatever the record holds, the status as written reads as ACTIVE: every
      literal it compares with has a lower-case second letter. */
  lemma StatusAsWrittenAlwaysActive(status: Option<FieldValue>)
    ensures ToContactStatusAsWritten(status) == Active
  {
    if FieldTruthy(status) {
      var statusStr := ToUpper(FieldString(status));
      if |statusStr| >= 2 {
        UpperCharIsNotLower(FieldString(status)[1]);
        assert statusStr[1] == UpperChar(FieldString(status)[1]);
      }
    }
  }

  /** `toContactStatus` as evidently intended: the upper-cased input compared
      with the enumeration's values; falsy or unknown input reads as ACTIVE. */
  function ToContactStatus(status: Option<FieldValue>): (r: ContactStatus)
    ensures !FieldTruthy(status) ==> r == Active
    ensures FieldTruthy(status) && r != Active ==> ToUpper(FieldString(status)) == r.Value()
  {
    if !FieldTruthy(status) then Active
    else
      var statusStr := ToUpper(FieldString(status));
      if statusStr == Active.Value() then Active
      else if statusStr == Inactive.Value() then Inactive
      else if statusStr == Pending.Value() then Pending
      else if statusStr == Blocked.Value() then Blocked
      else Active
  }

  /** Each status's own value, in any letter case, reads back as that status. */
  lemma StatusReadsBack(st: ContactStatus, written: string)
    requires ToUpper(written) == st.Value()
    ensures ToContactStatus(Some(Text(written))) == st
  {
    assert written != "";
  }

  /** The loop over `Object.values(...)` that returns the first enum value
      equal to `s`: the first of `candidates` whose value is `s`. */
  function Find<T>(s: string, candidates: seq<T>, value: T -> string): (r: Option<T>)
    ensures r.Some? ==> r.value in candidates && value(r.value) == s
    ensures r.None? ==> forall i :: 0 <= i < |candidates| ==> value(candidates[i]) != s
    ensures r.Some? ==> exists i :: FirstMatch(s, candidates, value, i) && candidates[i] == r.value
  {
    if candidates == [] then None
    else if value(candidates[0]) == s then
      assert FirstMatch(s, candidates, value, 0);
      Some(candidates[0])
    else
      var r := Find(s, candidates[1..], value);
      assert r.Some? ==> exists i :: FirstMatch(s, candidates, value, i) && candidates[i] == r.value by {
        if r.Some? {
          var k :| FirstMatch(s, candidates[1..], value, k) && candidates[1..][k] == r.value;
          assert FirstMatch(s, candidates, value, k + 1) by {
            forall j | 0 <= j < k + 1
              ensures value(candidates[j]) != s
            {
              if j > 0 { assert candidates[j] == candidates[1..][j - 1]; }
            }
          }
        }
      }
      r
  }

  /** Position `i` holds the first candidate whose value is `s`. */
  predicate FirstMatch<T>(s: string, candidates: seq<T>, value: T -> string, i: int) {
    0 <= i < |candidates| && value(candidates[i]) == s
    && forall j :: 0 <= j < i ==> value(candidates[j]) != s
  }

  /** `toContactCategory`: the category whose value the input is exactly, or
      Client for falsy or unknown input. */
  function ToContactCategory(category: Option<FieldValue>): (r: ContactCategory)
    ensures !FieldTruthy(category) ==> r == Client
    ensures FieldTruthy(category) && (exists c: ContactCategory :: c.Value() == FieldString(category)) ==>
      r.Value() == FieldString(category)
    ensures (forall c: ContactCategory :: c.Value() != FieldString(category)) ==> r == Client
  {
    if !FieldTruthy(category) then Client
    else
      var categoryStr := FieldString(category);
      ExhaustiveCategories(categoryStr);
      match Find(categoryStr, ALL_CATEGORIES, (c: ContactCategory) => c.Value())
      case Some(c) => c
      case None => Client
  }

  /** Every category is among ALL_CATEGORIES. */
  lemma ExhaustiveCategories(s: string)
    ensures (exists c: ContactCategory :: c.Value() == s) ==>
      exists i :: 0 <= i < |ALL_CATEGORIES| && ALL_CATEGORIES[i].Value() == s
  {
    if c: ContactCategory :| c.Value() == s {
      var i := match c
        case KitchenTable => 0 case InsideHouse => 1 case OutsideHouse => 2
        case Recruiter => 3 case Client => 4 case Employer => 5
        case Bills => 6 case Health => 7 case Woman => 8;
      assert ALL_CATEGORIES[i] == c;
    }
  }

  lemma ExhaustiveContactTypes(s: string)
    ensures (exists t: ContactType :: t.Value() == s) ==>
      exists i :: 0 <= i < |ALL_CONTACT_TYPES| && ALL_CONTACT_TYPES[i].Value() == s
  {
    if t: ContactType :| t.Value() == s {
      var i := match t
        case PhoneType => 0 case EmailType => 1 case InPersonType => 2
        case Individual => 3 case Company => 4;
      assert ALL_CONTACT_TYPES[i] == t;
    }
  }

  /** `toContactType`: the type whose value the input is exactly, `undefined`
      for falsy or unknown input. */
  function ToContactType(kind: Option<FieldValue>): (r: Option<ContactType>)
    ensures r.Some? ==> FieldTruthy(kind) && r.value.Value() == FieldString(kind)
    ensures r.None? ==> !FieldTruthy(kind) || forall t: ContactType :: t.Value() != FieldString(kind)
  {
    if !FieldTruthy(kind) then None
    else
      ExhaustiveContactTypes(FieldString(kind));
      Find(FieldString(kind), ALL_CONTACT_TYPES, (t: ContactType) => t.Value())
  }

  predicate IsMaritalStatus(s: string) {
    s == "Single" || s == "Divorced" || s == "Separated" || s == "Widow"
  }

  /** `toMaritalStatus`: the input when it is one of the four statuses,
      otherwise `undefined`. */
  function ToMaritalStatus(status: Option<FieldValue>): (r: Option<string>)
    ensures r.Some? <==> FieldTruthy(status) && IsMaritalStatus(FieldString(status))
    ensures r.Some? ==> r.value == FieldString(status)
    ensures forall m: MaritalStatus :: status == Some(Text(m.Value())) ==> r == Some(m.Value())
  {
    if !FieldTruthy(status) then None
    else if IsMaritalStatus(FieldString(status)) then Some(FieldString(status))
    else None
  }

  // ---------------------------------------------------------------------
  // Records to contacts and communications

  /** The `birthday` lookup as written: it tests `birthday` but reads
      `Birthday`, a key the schema does not have. */
  function BirthdayAsWritten(fields: Fields): Option<string> {
    if FieldTruthy(Get(fields, BirthdayField)) then Some(FieldString(Get(fields, CapitalBirthdayField))) else None
  }

  /** A stored birthday comes back as the text "undefined". */
  lemma BirthdayAsWrittenIsLost()
    ensures BirthdayAsWritten(map[BirthdayField := Text("1990-05-17")]) == Some("undefined")
  {
  }

  /** The `birthday` lookup as evidently intended: the stored text when it is
      truthy, otherwise `undefined`. */
  function ReadBirthday(fields: Fields): (r: Option<string>)
    ensures r.Some? <==> FieldTruthy(Get(fields, BirthdayField))
    ensures BirthdayField in fields && fields[BirthdayField].Text? && fields[BirthdayField].s != "" ==>
      r == Some(fields[BirthdayField].s)
  {
    if FieldTruthy(Get(fields, BirthdayField)) then Some(FieldString(Get(fields, BirthdayField))) else None
  }

  /** `Number(value)` where the model can tell: a number, a flag, a numeric text.
      Other values are `NaN`, shown as `None`. */
  function ToNumber(v: FieldValue): (r: Option<int>)
    ensures v.Number? ==> r == Some(v.n)
  {
    match v
    case Number(n) => Some(n)
    case Flag(b) => Some(if b then 1 else 0)
    case Text(s) => if s == "" then Some(0) else TypeAdapters.ParseNumber(s)
    case _ => None
  }

  /** A date-valued field, or `fallback` when it is empty. Dates are
      timestamps here, so a field that holds some other truthy value (a text
      the source would keep as `String(value)`) also gives `fallback`. */
  function DateOr(v: Option<FieldValue>, fallback: Timestamp): (t: Timestamp)
    ensures v.Some? && v.value.Date? ==> t == v.value.t
    ensures !FieldTruthy(v) ==> t == fallback
  {
    match v
    case Some(Date(d)) => d
    case _ => fallback
  }

  /** `airtableToContact`, with the status and birthday lookups corrected. Texts
      default to "", `has kids` to false, `number of kids` to 0, the address
      text goes to `street`, an empty `last contacted at` is `null`, the
      creation and update dates default to `now`, and no communication is
      attached. */
  function AirtableToContact(record: AirtableRecord, now: Timestamp): TypesContact {
    var f := record.fields;
    TypesContact(
      Some([]),
      if FieldTruthy(Get(f, LastContactedAtField)) then Present(DateOr(Get(f, LastContactedAtField), now)) else Null,
      record.id,
      StringOr(Get(f, NameField)),
      StringOr(Get(f, RoleField)),
      ToContactStatus(Get(f, StatusField)).Value(),
      ToContactCategory(Get(f, CategoryField)).Value(),
      StringOr(Get(f, DescriptionField)),
      None,
      ReadBirthday(f),
      if FieldTruthy(Get(f, AgeField)) then Some(AgeText(FieldString(Get(f, AgeField)))) else None,
      TypesAddress(Some(StringOr(Get(f, AddressField))), Some(""), Some(""), Some(""), Some("")),
      FieldTruthy(Get(f, HasKidsField)),
      if FieldTruthy(Get(f, NumberOfKidsField)) then ToNumber(Get(f, NumberOfKidsField).value) else Some(0),
      ToMaritalStatus(Get(f, MaritalStatusField)),
      Some(StringOr(Get(f, AdditionalDetailsField))),
      None,
      DateOr(Get(f, CreatedAtField), now),
      DateOr(Get(f, UpdatedAtField), now),
      Some(StringOr(Get(f, PhoneField))),
      Some(StringOr(Get(f, EmailField))),
      match ToContactType(Get(f, ContactTypeField)) case Some(t) => Some(t.Value()) case None => None,
      if FieldTruthy(Get(f, ContactDateField)) then Some(DateOr(Get(f, ContactDateField), now)) else None,
      None,
      None)
  }

  /** The id is the record's, and no picture or communication is read. */
  lemma AirtableFixedParts(record: AirtableRecord, now: Timestamp)
    ensures var c := AirtableToContact(record, now);
      c.id == record.id && c.picture.None? && c.communications == Some([])
  {
  }

  /** Empty texts read as "" and the address text lands in `street`. */
  lemma AirtableTextDefaults(record: AirtableRecord, now: Timestamp)
    ensures var c := AirtableToContact(record, now);
      (!FieldTruthy(Get(record.fields, NameField)) ==> c.name == "")
      && (!FieldTruthy(Get(record.fields, RoleField)) ==> c.role == "")
      && (!FieldTruthy(Get(record.fields, DescriptionField)) ==> c.description == "")
      && c.address == TypesAddress(Some(StringOr(Get(record.fields, AddressField))), Some(""), Some(""), Some(""), Some(""))
  {
  }

  /** `has kids` is the field's truthiness and `number of kids` defaults to 0. */
  lemma AirtableKidsDefaults(record: AirtableRecord, now: Timestamp)
    ensures var c := AirtableToContact(record, now);
      (c.hasKids <==> FieldTruthy(Get(record.fields, HasKidsField)))
      && (!FieldTruthy(Get(record.fields, NumberOfKidsField)) ==> c.numberOfKids == Some(0))
      && (NumberOfKidsField in record.fields && record.fields[NumberOfKidsField].Number? ==>
            c.numberOfKids == Some(record.fields[NumberOfKidsField].n))
  {
  }

  /** An empty `last contacted at` is `null`; missing creation and update dates are `now`. */
  lemma AirtableDateDefaults(record: AirtableRecord, now: Timestamp)
    ensures var c := AirtableToContact(record, now);
      (c.lastContactedAt.Null? <==> !FieldTruthy(Get(record.fields, LastContactedAtField)))
      && (!FieldTruthy(Get(record.fields, CreatedAtField)) ==> c.createdAt == now)
      && (!FieldTruthy(Get(record.fields, UpdatedAtField)) ==> c.updatedAt == now)
  {
  }

  /** The communication record as `airtableToCommunication` returns it: `types`
      holds the raw field values, and `date` is always "" (`None`). */
  datatype AirtableCommunication = AirtableCommunication(
    id: string, types: seq<FieldValue>, notes: string, timestamp: Timestamp, date: Option<Timestamp>)

  /** `airtableToCommunication`: a list-valued `type` is taken as it is, any
      other value is wrapped in a one-element list, and a missing one gives [];
      the timestamp is the record's date or `now`. */
  function AirtableToCommunication(record: AirtableRecord, now: Timestamp): (e: AirtableCommunication)
    ensures e.id == record.id && e.date.None?
    ensures TypeField !in record.fields ==> e.types == []
    ensures TypeField in record.fields && record.fields[TypeField].Items? ==>
      |e.types| == |record.fields[TypeField].items|
      && forall i :: 0 <= i < |e.types| ==> e.types[i] == Text(record.fields[TypeField].items[i])
    ensures TypeField in record.fields && FieldTruthy(Get(record.fields, TypeField)) && !record.fields[TypeField].Items? ==>
      e.types == [record.fields[TypeField]]
    ensures !FieldTruthy(Get(record.fields, NotesField)) ==> e.notes == ""
    ensures !FieldTruthy(Get(record.fields, DateField)) ==> e.timestamp == now
  {
    var f := record.fields;
    var typeValue := if FieldTruthy(Get(f, TypeField)) then f[TypeField] else Items([]);
    var types := match typeValue
      case Items(items) => seq(|items|, i requires 0 <= i < |items| => Text(items[i]))
      case v => [v];
    AirtableCommunication(record.id, types, StringOr(Get(f, NotesField)), DateOr(Get(f, DateField), now), None)
  }

  // ---------------------------------------------------------------------
  // Field maps sent on create and update

  /** `JSON.stringify(address)`: undefined parts are omitted. Quotes and
      backslashes inside the parts are not escaped here. */
  function AddressJson(a: TypesAddress): (r: string)
    ensures |r| >= 2 && r[0] == '{' && r[|r| - 1] == '}'
  {
    var parts :=
      JsonPart("street", a.street) + JsonPart("city", a.city) + JsonPart("state", a.state)
      + JsonPart("zipCode", a.zipCode) + JsonPart("country", a.country);
    "{" + JoinComma(parts) + "}"
  }

  function JsonPart(key: string, value: Option<string>): seq<string> {
    match value
    case Some(v) => ["\"" + key + "\":\"" + v + "\""]
    case None => []
  }

  /** `value || undefined` for an optional text. */
  function TextSlot(s: Option<string>): Option<FieldValue> {
    match s case Some(v) => Some(Text(v)) case None => None
  }

  /** `contact.contactDate || contact.lastContactedAt || undefined` */
  function LastContactedSlot(c: TypesContact): (v: Option<FieldValue>)
    ensures c.contactDate.Some? ==> v == Some(Date(c.contactDate.value))
    ensures c.contactDate.None? && c.lastContactedAt.Present? ==> v == Some(Date(c.lastContactedAt.value))
    ensures c.contactDate.None? && !c.lastContactedAt.Present? ==> v.None?
  {
    if c.contactDate.Some? then Some(Date(c.contactDate.value))
    else if c.lastContactedAt.Present? then Some(Date(c.lastContactedAt.value))
    else None
  }

  /** The keys of the field map `createContact` and `updateContact` build. */
  function SentKeys(): set<FieldName> {
    {
    NameField, RoleField, StatusField, CategoryField, DescriptionField, BirthdayField, AgeField,
    AddressField, HasKidsField, NumberOfKidsField, MaritalStatusField, AdditionalDetailsField,
    LastContactedAtField, PhoneField, EmailField, ContactTypeField, ContactDateField}
  }

  /** The value that map puts under `key` (`None` is `undefined`). */
  function Slot(c: TypesContact, key: FieldName): Option<FieldValue> {
    match key
    case NameField => Some(Text(c.name))
    case RoleField => Some(Text(c.role))
    case StatusField => Some(Text(c.status))
    case CategoryField => Some(Text(c.category))
    case DescriptionField => Some(Text(c.description))
    case BirthdayField => TextSlot(c.birthday)
    case AgeField => if AgeTruthy(c.age) then Some(Text(TypeAdapters.AgeString(c.age.value))) else None
    case AddressField => Some(Text(AddressJson(c.address)))
    case HasKidsField => Some(Flag(c.hasKids))
    case NumberOfKidsField => (match c.numberOfKids case Some(n) => Some(Number(n)) case None => None)
    case MaritalStatusField => TextSlot(c.maritalStatus)
    case AdditionalDetailsField => TextSlot(c.additionalDetails)
    case LastContactedAtField => LastContactedSlot(c)
    case PhoneField => TextSlot(c.phoneNumber)
    case EmailField => TextSlot(c.email)
    case ContactTypeField => TextSlot(c.contactType)
    case ContactDateField => (match c.contactDate case Some(d) => Some(Date(d)) case None => None)
    case _ => None
  }

  /** The field map `createContact` builds from a whole contact, before the
      undefined keys are deleted. */
  function BuildFields(c: TypesContact): (fields: map<FieldName, Option<FieldValue>>)
    ensures CapitalBirthdayField !in fields && CreatedAtField !in fields
    ensures forall k :: k in fields <==> k in SentKeys()
  {
    map k | k in SentKeys() :: Slot(c, k)
  }

  /** The map left once every undefined key is deleted. */
  function Defined(fields: map<FieldName, Option<FieldValue>>): (r: map<FieldName, Option<FieldValue>>)
    ensures forall k :: k in r ==> r[k].Some?
    ensures forall k :: k in fields && fields[k].Some? ==> k in r && r[k] == fields[k]
    ensures r.Keys <= fields.Keys
  {
    map k | k in fields && fields[k].Some? :: fields[k]
  }

  /** `Object.keys(fields).forEach(key => fields[key] === undefined && delete fields[key])`,
      deleting one key at a time. */
  method DeleteUndefined(fields: map<FieldName, Option<FieldValue>>) returns (cleaned: map<FieldName, Option<FieldValue>>)
    ensures cleaned == Defined(fields)
  {
    cleaned := fields;
    var keys := fields.Keys;
    while keys != {}
      invariant keys <= fields.Keys
      invariant forall k :: k in cleaned ==> k in fields && cleaned[k] == fields[k]
      invariant forall k :: k in fields && k !in keys && k in cleaned ==> fields[k].Some?
      invariant forall k :: k in fields && (k in keys || fields[k].Some?) ==> k in cleaned
      decreases |keys|
    {
      var key :| key in keys;
      if cleaned[key].None? {
        cleaned := cleaned - {key};
      }
      keys := keys - {key};
    }
  }

  /** What Airtable stores for a cleaned map. */
  function Stored(cleaned: map<FieldName, Option<FieldValue>>): (f: Fields)
    requires forall k :: k in cleaned ==> cleaned[k].Some?
    ensures f.Keys == cleaned.Keys
  {
    map k | k in cleaned :: cleaned[k].value
  }

  /** After the cleanup, a key is stored exactly when it was defined, with its value. */
  lemma StoredGet(fields: map<FieldName, Option<FieldValue>>, key: FieldName)
    requires key in fields
    ensures Get(Stored(Defined(fields)), key) == fields[key]
  {
  }

  /** The fields Airtable stores for a created contact: the defined slots. */
  function SentFields(c: TypesContact): Fields {
    map k | k in SentKeys() && Slot(c, k).Some? :: Slot(c, k).value
  }

  /** Building the field map and deleting its undefined keys stores exactly
      the defined slots. */
  lemma SentFieldsStored(c: TypesContact)
    ensures Stored(Defined(BuildFields(c))) == SentFields(c)
  {
  }

  /** The record a created contact is stored as. */
  function CreatedRecord(c: TypesContact, id: string): AirtableRecord {
    AirtableRecord(id, SentFields(c))
  }

  /** A sent key reads back what the field map put under it. */
  lemma SentGet(c: TypesContact, id: string, key: FieldName)
    requires key in SentKeys()
    ensures Get(CreatedRecord(c, id).fields, key) == Slot(c, key)
  {
  }

  /** "last contacted at" is sent exactly when the contact has a contact date or
      a last-contacted date, and then holds the contact date if there is one. */
  lemma SentLastContacted(c: TypesContact)
    ensures var sent := Stored(Defined(BuildFields(c)));
      (LastContactedAtField in sent <==> c.contactDate.Some? || c.lastContactedAt.Present?)
      && (c.contactDate.Some? ==> sent[LastContactedAtField] == Date(c.contactDate.value))
      && (c.contactDate.None? && c.lastContactedAt.Present? ==>
            sent[LastContactedAtField] == Date(c.lastContactedAt.value))
  {
    StoredGet(BuildFields(c), LastContactedAtField);
  }

  // `updateContact` takes a `Partial<Contact>` straight from the request body.
  // Such a partial contact is modelled as a whole contact `c` together with the
  // set `present` of the properties the body holds, each named by the field it
  // is sent under (`LastContactedAtField` stands for `lastContactedAt`,
  // `ContactDateField` for `contactDate`). An absent property reads `undefined`.

  /** The value the update map puts under `key`. An absent property gives
      `undefined`, the address included (`JSON.stringify(undefined)` and
      `contactData.address?.street` are both `undefined`); "last contacted at"
      takes the present contact date, else the present last-contacted date. */
  function UpdateSlot(c: TypesContact, present: set<FieldName>, key: FieldName): (v: Option<FieldValue>)
    ensures key != LastContactedAtField ==> v == (if key in present then Slot(c, key) else None)
  {
    if key == LastContactedAtField then
      if ContactDateField in present && c.contactDate.Some? then Some(Date(c.contactDate.value))
      else if LastContactedAtField in present && c.lastContactedAt.Present? then Some(Date(c.lastContactedAt.value))
      else None
    else if key in present then Slot(c, key)
    else None
  }

  /** The field map `updateContact` builds, before the undefined keys are deleted. */
  function UpdateFields(c: TypesContact, present: set<FieldName>): (fields: map<FieldName, Option<FieldValue>>)
    ensures forall k :: k in fields <==> k in SentKeys()
  {
    map k | k in SentKeys() :: UpdateSlot(c, present, k)
  }

  /** A body that holds every property builds the same map as `createContact`. */
  lemma WholeUpdateIsCreate(c: TypesContact, present: set<FieldName>)
    requires SentKeys() <= present
    ensures UpdateFields(c, present) == BuildFields(c)
  {
    forall k | k in SentKeys()
      ensures UpdateSlot(c, present, k) == Slot(c, k)
    {
      PresentSlot(c, present, k);
    }
  }

  lemma PresentSlot(c: TypesContact, present: set<FieldName>, key: FieldName)
    requires key in present && ContactDateField in present
    ensures UpdateSlot(c, present, key) == Slot(c, key)
  {
    if key == LastContactedAtField {
      assert Slot(c, key) == LastContactedSlot(c);
    }
  }

  /** A property the body does not hold is not sent, so the update does not
      change that field of the stored record. */
  lemma AbsentNotSent(c: TypesContact, present: set<FieldName>, key: FieldName)
    requires key != LastContactedAtField && key !in present
    ensures key !in Stored(Defined(UpdateFields(c, present)))
  {
  }

  /** A present property is sent exactly when it is defined, with its value. */
  lemma PresentSent(c: TypesContact, present: set<FieldName>, key: FieldName)
    requires key in SentKeys() && key != LastContactedAtField && key in present
    ensures Get(Stored(Defined(UpdateFields(c, present))), key) == Slot(c, key)
  {
    StoredGet(UpdateFields(c, present), key);
  }

  /** "last contacted at" is sent by an update exactly when the body holds a
      contact date or a last-contacted date. */
  lemma UpdateLastContacted(c: TypesContact, present: set<FieldName>)
    ensures var sent := Stored(Defined(UpdateFields(c, present)));
      (LastContactedAtField in sent <==>
         (ContactDateField in present && c.contactDate.Some?)
         || (LastContactedAtField in present && c.lastContactedAt.Present?))
      && (ContactDateField in present && c.contactDate.Some? ==>
            sent[LastContactedAtField] == Date(c.contactDate.value))
  {
    StoredGet(UpdateFields(c, present), LastContactedAtField);
  }

  // How `airtableToContact` reads single fields of any record that holds a
  // contact's slots.

  lemma ReadsTexts(c: TypesContact, record: AirtableRecord, now: Timestamp)
    requires Get(record.fields, NameField) == Slot(c, NameField)
    requires Get(record.fields, RoleField) == Slot(c, RoleField)
    requires Get(record.fields, DescriptionField) == Slot(c, DescriptionField)
    ensures var back := AirtableToContact(record, now);
      back.name == c.name && back.role == c.role && back.description == c.description
  {
  }

  lemma ReadsKids(c: TypesContact, record: AirtableRecord, now: Timestamp)
    requires Get(record.fields, HasKidsField) == Slot(c, HasKidsField)
    requires Get(record.fields, NumberOfKidsField) == Slot(c, NumberOfKidsField)
    ensures var back := AirtableToContact(record, now);
      back.hasKids == c.hasKids && back.numberOfKids == Some(c.numberOfKids.GetOr(0))
  {
    AirtableKidsDefaults(record, now);
  }

  lemma ReadsContactInfo(c: TypesContact, record: AirtableRecord, now: Timestamp)
    requires Get(record.fields, PhoneField) == Slot(c, PhoneField)
    requires Get(record.fields, EmailField) == Slot(c, EmailField)
    ensures var back := AirtableToContact(record, now);
      back.phoneNumber == Some(c.phoneNumber.GetOr("")) && back.email == Some(c.email.GetOr(""))
  {
  }

  lemma ReadsDates(c: TypesContact, record: AirtableRecord, now: Timestamp)
    requires Get(record.fields, ContactDateField) == Slot(c, ContactDateField)
    requires Get(record.fields, LastContactedAtField) == Slot(c, LastContactedAtField)
    ensures var back := AirtableToContact(record, now);
      back.contactDate == c.contactDate
      && (c.contactDate.Some? ==> back.lastContactedAt == Present(c.contactDate.value))
      && (c.contactDate.None? ==> back.lastContactedAt == (if c.lastContactedAt.Present? then c.lastContactedAt else Null))
  {
  }

  lemma ReadsAddress(c: TypesContact, record: AirtableRecord, now: Timestamp)
    requires Get(record.fields, AddressField) == Slot(c, AddressField)
    ensures AirtableToContact(record, now).address.street == Some(AddressJson(c.address))
  {
  }

  lemma ReadsStatus(c: TypesContact, record: AirtableRecord, now: Timestamp, st: ContactStatus)
    requires Get(record.fields, StatusField) == Slot(c, StatusField)
    requires c.status == st.Value()
    ensures AirtableToContact(record, now).status == c.status
  {
    UpperOfUpper(st);
    StatusReadsBack(st, c.status);
  }

  lemma ReadsCategory(c: TypesContact, record: AirtableRecord, now: Timestamp)
    requires Get(record.fields, CategoryField) == Slot(c, CategoryField)
    ensures var back := AirtableToContact(record, now);
      ((exists cat: ContactCategory :: cat.Value() == c.category) ==> back.category == c.category)
      && ((forall cat: ContactCategory :: cat.Value() != c.category) ==> back.category == Client.Value())
  {
    if c.category == "" {
      forall cat: ContactCategory
        ensures cat.Value() != c.category
      {
      }
    }
  }

  /** A created contact reads back with its name, role and description. */
  lemma ReadBackTexts(c: TypesContact, id: string, now: Timestamp)
    ensures var back := AirtableToContact(CreatedRecord(c, id), now);
      back.name == c.name && back.role == c.role && back.description == c.description
  {
    SentGet(c, id, NameField);
    SentGet(c, id, RoleField);
    SentGet(c, id, DescriptionField);
    ReadsTexts(c, CreatedRecord(c, id), now);
  }

  /** A created contact reads back with its kids fields; no number reads as 0. */
  lemma ReadBackKids(c: TypesContact, id: string, now: Timestamp)
    ensures var back := AirtableToContact(CreatedRecord(c, id), now);
      back.hasKids == c.hasKids && back.numberOfKids == Some(c.numberOfKids.GetOr(0))
  {
    SentGet(c, id, HasKidsField);
    SentGet(c, id, NumberOfKidsField);
    ReadsKids(c, CreatedRecord(c, id), now);
  }

  /** A created contact reads back with its phone and e-mail, "" when it had none. */
  lemma ReadBackContactInfo(c: TypesContact, id: string, now: Timestamp)
    ensures var back := AirtableToContact(CreatedRecord(c, id), now);
      back.phoneNumber == Some(c.phoneNumber.GetOr("")) && back.email == Some(c.email.GetOr(""))
  {
    SentGet(c, id, PhoneField);
    SentGet(c, id, EmailField);
    ReadsContactInfo(c, CreatedRecord(c, id), now);
  }

  /** A created contact reads back with its contact date, and with the contact
      date (or else its last-contacted date) as last contacted. */
  lemma ReadBackDates(c: TypesContact, id: string, now: Timestamp)
    ensures var back := AirtableToContact(CreatedRecord(c, id), now);
      back.contactDate == c.contactDate
      && (c.contactDate.Some? ==> back.lastContactedAt == Present(c.contactDate.value))
      && (c.contactDate.None? ==> back.lastContactedAt == (if c.lastContactedAt.Present? then c.lastContactedAt else Null))
  {
    SentGet(c, id, ContactDateField);
    SentGet(c, id, LastContactedAtField);
    ReadsDates(c, CreatedRecord(c, id), now);
  }

  /** The whole address comes back, as its JSON text, in `street`. */
  lemma ReadBackAddress(c: TypesContact, id: string, now: Timestamp)
    ensures AirtableToContact(CreatedRecord(c, id), now).address.street == Some(AddressJson(c.address))
  {
    SentGet(c, id, AddressField);
    ReadsAddress(c, CreatedRecord(c, id), now);
  }

  /** A status among the enumeration's values survives create and read-back. */
  lemma ReadBackStatus(c: TypesContact, id: string, now: Timestamp, st: ContactStatus)
    requires c.status == st.Value()
    ensures AirtableToContact(CreatedRecord(c, id), now).status == c.status
  {
    SentGet(c, id, StatusField);
    ReadsStatus(c, CreatedRecord(c, id), now, st);
  }

  /** A category among the enumeration's values survives create and
      read-back; any other category reads back as Client. */
  lemma ReadBackCategory(c: TypesContact, id: string, now: Timestamp)
    ensures var back := AirtableToContact(CreatedRecord(c, id), now);
      ((exists cat: ContactCategory :: cat.Value() == c.category) ==> back.category == c.category)
      && ((forall cat: ContactCategory :: cat.Value() != c.category) ==> back.category == Client.Value())
  {
    SentGet(c, id, CategoryField);
    ReadsCategory(c, CreatedRecord(c, id), now);
  }

  /** The enumeration's status values are already upper case. */
  lemma UpperOfUpper(st: ContactStatus)
    ensures ToUpper(st.Value()) == st.Value()
  {
    var v := st.Value();
    assert forall i :: 0 <= i < |v| ==> UpperChar(v[i]) == v[i];
  }
}
