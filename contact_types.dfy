/** The enumerations and the presentation-side `Contact` shape of
    types/contact.ts. At run time every enumeration value is its string, so the
    record fields that the source types with an enumeration but fills with
    unchecked casts (`status`, `category`, ...) are strings here. */
module ContactTypes {
  import opened Common

  datatype ContactStatus = Active | Inactive | Pending | Blocked {
    function Value(): string {
      match this
      case Active => "ACTIVE"
      case Inactive => "INACTIVE"
      case Pending => "PENDING"
      case Blocked => "BLOCKED"
    }
  }

  datatype ContactCategory =
    | KitchenTable | InsideHouse | OutsideHouse | Recruiter | Client
    | Employer | Bills | Health | Woman
  {
    function Value(): string {
      match this
      case KitchenTable => "Kitchen Table"
      case InsideHouse => "Inside House"
      case OutsideHouse => "Outside House"
      case Recruiter => "Recruiter"
      case Client => "Client"
      case Employer => "Employer"
      case Bills => "Bills"
      case Health => "Health"
      case Woman => "Woman"
    }
  }

  /** `Object.values(ContactCategory)`, in declaration order. */
  const ALL_CATEGORIES: seq<ContactCategory> :=
    [KitchenTable, InsideHouse, OutsideHouse, Recruiter, Client, Employer, Bills, Health, Woman]

  datatype CommunicationType = Call | Video | InPerson | Email {
    function Value(): string {
      match this
      case Call => "Call"
      case Video => "Video"
      case InPerson => "In Person"
      case Email => "Email"
    }
  }

  datatype ContactType = PhoneType | EmailType | InPersonType | Individual | Company {
    function Value(): string {
      match this
      case PhoneType => "Phone"
      case EmailType => "Email"
      case InPersonType => "In-Person"
      case Individual => "Individual"
      case Company => "Company"
    }
  }

  /** `Object.values(ContactType)`, in declaration order. */
  const ALL_CONTACT_TYPES: seq<ContactType> := [PhoneType, EmailType, InPersonType, Individual, Company]

  datatype MaritalStatus = Single | Divorced | Separated | Widow {
    function Value(): string {
      match this
      case Single => "Single"
      case Divorced => "Divorced"
      case Separated => "Separated"
      case Widow => "Widow"
    }
  }

  /** Address of the presentation shape: every part may be `undefined`. */
  datatype TypesAddress = TypesAddress(
    street: Option<string>,
    city: Option<string>,
    state: Option<string>,
    zipCode: Option<string>,
    country: Option<string>)

  /** `age` as it is found at run time: a number or a string. */
  datatype AgeValue = AgeNumber(n: int) | AgeText(s: string)

  /** JavaScript truthiness of an age value: 0, "" and `undefined` are falsy. */
  predicate AgeTruthy(age: Option<AgeValue>) {
    match age
    case None => false
    case Some(AgeNumber(n)) => n != 0
    case Some(AgeText(s)) => s != ""
  }

  /** `CommunicationEntry`. `typeStub` records whether the entry carries the
      placeholder `type` method that the converters attach (any function is
      truthy, which is all that the readers of `type` look at); `date` is
      `None` where the source stores "" or nothing. */
  datatype CommunicationEntry = CommunicationEntry(
    id: string,
    types: seq<CommunicationType>,
    notes: string,
    timestamp: Timestamp,
    date: Option<Timestamp>,
    typeStub: bool)

  /** The presentation-side `Contact`. `communications` and
      `communicationHistory` may be missing at run time, `lastContactedAt` may be
      `undefined`, `null` or a date, and `synced`/`deleted` are the bookkeeping
      flags that contact-management.tsx carries through its cast. */
  datatype TypesContact = TypesContact(
    communications: Option<seq<CommunicationEntry>>,
    lastContactedAt: Nullable<Timestamp>,
    id: string,
    name: string,
    role: string,
    status: string,
    category: string,
    description: string,
    picture: Option<string>,
    birthday: Option<string>,
    age: Option<AgeValue>,
    address: TypesAddress,
    hasKids: bool,
    numberOfKids: Option<int>,
    maritalStatus: Option<string>,
    additionalDetails: Option<string>,
    communicationHistory: Option<seq<CommunicationEntry>>,
    createdAt: Timestamp,
    updatedAt: Timestamp,
    phoneNumber: Option<string>,
    email: Option<string>,
    contactType: Option<string>,
    contactDate: Option<Timestamp>,
    synced: Option<bool>,
    deleted: Option<bool>)
}
