/** lib/ui-helpers.ts: the badge colour of a status and the icon of a
    communication type. Both switch on the run-time string, so a value
    outside the enumeration reaches the `default` arm. */
module UiHelpers {
  import opened ContactTypes

  /** The lucide-react icons the helper can return. */
  datatype Icon = PhoneIcon | VideoIcon | MailIcon | UserIcon

  /** `getStatusColor` */
  function StatusColor(status: string): (color: string)
    ensures status == Active.Value() ==> color == "bg-green-500"
    ensures status == Inactive.Value() ==> color == "bg-red-500"
    ensures status == Pending.Value() ==> color == "bg-yellow-500"
    ensures status == Blocked.Value() ==> color == "bg-gray-500"
    ensures (forall s: ContactStatus :: status != s.Value()) ==> color == "bg-gray-500"
  {
    if status == Active.Value() then "bg-green-500"
    else if status == Inactive.Value() then "bg-red-500"
    else if status == Pending.Value() then "bg-yellow-500"
    else if status == Blocked.Value() then "bg-gray-500"
    else "bg-gray-500"
  }

  /** `getCommunicationTypeIcon` */
  function CommunicationTypeIcon(kind: string): (icon: Icon)
    ensures kind == Call.Value() ==> icon == PhoneIcon
    ensures kind == Video.Value() ==> icon == VideoIcon
    ensures kind == InPerson.Value() ==> icon == UserIcon
    ensures kind == Email.Value() ==> icon == MailIcon
    ensures (forall t: CommunicationType :: kind != t.Value()) ==> icon == UserIcon
  {
    if kind == Call.Value() then PhoneIcon
    else if kind == Video.Value() then VideoIcon
    else if kind == InPerson.Value() then UserIcon
    else if kind == Email.Value() then MailIcon
    else UserIcon
  }

  /** Only ACTIVE, INACTIVE and PENDING get a colour other than gray. */
  lemma GrayUnlessKnown(status: string)
    ensures StatusColor(status) != "bg-gray-500" <==> status in {"ACTIVE", "INACTIVE", "PENDING"}
  {
  }

  /** Every icon but the user icon belongs to exactly one type. */
  lemma IconIdentifiesType(kind: string)
    ensures CommunicationTypeIcon(kind) == PhoneIcon <==> kind == Call.Value()
    ensures CommunicationTypeIcon(kind) == VideoIcon <==> kind == Video.Value()
    ensures CommunicationTypeIcon(kind) == MailIcon <==> kind == Email.Value()
  {
  }
}
