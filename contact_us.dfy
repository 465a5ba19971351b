/** app/contact-us/page.tsx: the contact form. Its status moves idle, loading, then
    success or error, and a timer brings it back to idle five seconds later. */
module ContactPage {
  import opened Common

  datatype ContactStatus = Idle | Loading | Sent | Failed

  /** The form's four fields. */
  datatype ContactFields = ContactFields(fullName: string, email: string, phone: string, message: string)

  const EmptyContactFields := ContactFields("", "", "", "")

  /** The four inputs. */
  datatype ContactField = FullNameField | EmailField | PhoneField | MessageField

  function FieldValue(f: ContactFields, field: ContactField): string {
    match field
    case FullNameField => f.fullName
    case EmailField => f.email
    case PhoneField => f.phone
    case MessageField => f.message
  }

  /** `{...formData, [field]: value}`: the named field takes the value, the others are kept. */
  function WithField(f: ContactFields, field: ContactField, value: string): (r: ContactFields)
    ensures FieldValue(r, field) == value
    ensures forall other :: other != field ==> FieldValue(r, other) == FieldValue(f, other)
  {
    match field
    case FullNameField => f.(fullName := value)
    case EmailField => f.(email := value)
    case PhoneField => f.(phone := value)
    case MessageField => f.(message := value)
  }

  /** How long a success or error is shown before the form returns to idle. */
  const RevertDelayMs: nat := 5000

  /** The document written to "inquiries": the fields and the source tag;
      `submittedAt` is always written as well. */
  datatype InquiryRecord = InquiryRecord(fields: ContactFields, source: string)

  const ContactSource := "Contact Page"

  /** The submit button's label for each status. */
  function ButtonLabel(s: ContactStatus): (r: string)
    ensures s == Loading ==> r == "Processing..."
    ensures s == Sent ==> r == "Message Sent!"
    ensures s == Failed ==> r == "Try Again"
    ensures s == Idle ==> r == "Send Proposal"
  {
    match s
    case Loading => "Processing..."
    case Sent => "Message Sent!"
    case Failed => "Try Again"
    case Idle => "Send Proposal"
  }

  /** Each status has its own label, so the label tells the status. */
  lemma ButtonLabelDeterminesStatus(s: ContactStatus, t: ContactStatus)
    ensures ButtonLabel(s) == ButtonLabel(t) <==> s == t
  {
  }

  /** The page's state, its log of outside calls and its pending revert timers. */
  class ContactForm {
    var status: ContactStatus
    var formData: ContactFields
    ghost var events: seq<Event<InquiryRecord>>
    var pendingReverts: nat

    constructor()
      ensures status == Idle && formData == EmptyContactFields && events == [] && pendingReverts == 0
    {
      status := Idle;
      formData := EmptyContactFields;
      events := [];
      pendingReverts := 0;
    }

    /** An input's onChange, `setFormData({...formData, field: value})`: the field takes
        the typed text and the others keep theirs. */
    method Edit(field: ContactField, value: string)
      modifies this`formData
      ensures formData == WithField(old(formData), field, value)
    {
      formData := WithField(formData, field, value);
    }

    method CallWrite(e: Event<InquiryRecord>, reply: WriteReply) returns (ok: bool)
      requires status == Loading && IsWrite(e)
      modifies this`events
      ensures events == old(events) + [e]
      ensures ok <==> reply.Written?
    {
      events := events + [e];
      ok := reply.Written?;
    }

    /** handleSubmit: "loading" before the write; then "success" with the form cleared,
        or "error" with the form kept; in both cases a revert is scheduled. */
    method HandleSubmit(reply: WriteReply)
      modifies this`status, this`formData, this`events, this`pendingReverts
      ensures events == old(events) + [Add("inquiries", InquiryRecord(old(formData), ContactSource)), Timer(RevertDelayMs)]
      ensures pendingReverts == old(pendingReverts) + 1
      ensures reply.Written? ==> status == Sent && formData == EmptyContactFields
      ensures !reply.Written? ==> status == Failed && formData == old(formData)
    {
      status := Loading;
      var ok := CallWrite(Add("inquiries", InquiryRecord(formData, ContactSource)), reply);
      if ok {
        status := Sent;
        formData := EmptyContactFields;
      } else {
        status := Failed;
      }
      events := events + [Timer(RevertDelayMs)];
      pendingReverts := pendingReverts + 1;
    }

    /** A scheduled revert fires: the status returns to idle, whatever it is by then,
        and the fields are left alone. */
    method RevertTimerFires()
      requires pendingReverts > 0
      modifies this`status, this`pendingReverts
      ensures status == Idle && pendingReverts == old(pendingReverts) - 1
    {
      status := Idle;
      pendingReverts := pendingReverts - 1;
    }
  }
}
