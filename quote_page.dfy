/** app/quote/page.tsx: the public quote-request form. The page carries its own
    uploader (no URL rewrite, its own default error); the submit runs an optional
    upload, then one write, and moves the page status to success or error. */
module QuotePage {
  import opened Common
  import Cloudinary

  /** The names of the form's inputs, in page order. */
  const QuoteFields: seq<string> :=
    ["firstName", "lastName", "streetAddress", "company", "contactNumber", "email", "message"]

  /** Every field empty: the initial form, and the form after a successful submit. */
  const EmptyQuoteForm: map<string, string> :=
    map["firstName" := "", "lastName" := "", "streetAddress" := "", "company" := "",
        "contactNumber" := "", "email" := "", "message" := ""]

  /** Thrown when the error body carries no message. */
  const QuoteUploadError := "Cloudinary Upload Failed"

  datatype QuoteStatus = Idle | Succeeded | Failed

  /** The document written: every form field, the attachment's URL ("" without one) and
      the status "pending"; `createdAt` is always written as well. */
  datatype QuoteRecord = QuoteRecord(fields: map<string, string>, attachmentUrl: string, status: string)

  /** `{ ...formData, [name]: value }`: the named field takes the value and every other
      field keeps its value. */
  function ChangeField(form: map<string, string>, name: string, value: string): (r: map<string, string>)
    ensures r.Keys == form.Keys + {name}
    ensures r[name] == value
    ensures forall k :: k in form && k != name ==> r[k] == form[k]
  {
    form[name := value]
  }

  /** Changing a field of the form keeps exactly the seven fields. */
  lemma ChangeKeepsFields(form: map<string, string>, name: string, value: string)
    requires form.Keys == EmptyQuoteForm.Keys
    requires name in QuoteFields
    ensures ChangeField(form, name, value).Keys == EmptyQuoteForm.Keys
  {
  }

  /** The page's own uploader: the host's `secure_url` as it is, or the error thrown. */
  function QuoteUpload(reply: HostReply): (r: Result<string, string>)
    ensures r.Success? <==> reply.Uploaded?
    ensures reply.Uploaded? ==> r.value == reply.secureUrl
    ensures reply.Rejected? ==> r.error == (if reply.message == "" then QuoteUploadError else reply.message)
    ensures reply.Unreachable? ==> r.error == Cloudinary.NetworkError
  {
    match reply
    case Uploaded(url) => Success(url)
    case Rejected(message) => Failure(if message == "" then QuoteUploadError else message)
    case Unreachable => Failure(Cloudinary.NetworkError)
  }

  /** Unlike the shared uploader, this one stores a URL without the format and quality
      rewrite: the two differ whenever the host's URL holds "/upload/". */
  lemma AttachmentIsNotOptimized(reply: HostReply, i: nat)
    requires reply.Uploaded? && OccursAt(reply.secureUrl, Cloudinary.UploadSegment, i)
    ensures QuoteUpload(reply).value != Cloudinary.UploadToCloudinary(reply).value
  {
    Cloudinary.OptimizeUrlLength(reply.secureUrl, i);
  }

  /** The URL the record carries, or the upload's error: "" when no file is attached. */
  function AttachmentUrl(file: Option<File>, reply: HostReply): (r: Result<string, string>)
    ensures file.None? ==> r == Success("")
    ensures file.Some? ==> r == QuoteUpload(reply)
  {
    if file.None? then Success("") else QuoteUpload(reply)
  }

  /** Everything the submit does outside the page, in order: the upload when a file is
      attached, then the write unless the upload failed. */
  function SubmitEvents(form: map<string, string>, file: Option<File>, uploadReply: HostReply)
    : seq<Event<QuoteRecord>>
  {
    var upload := if file.Some? then [Upload(file.value)] else [];
    match AttachmentUrl(file, uploadReply)
    case Failure(_) => upload
    case Success(url) => upload + [Add("quotes", QuoteRecord(form, url, "pending"))]
  }

  /** The submit ends in success exactly when the upload (if any) and the write did. */
  predicate SubmitSucceeds(file: Option<File>, uploadReply: HostReply, writeReply: WriteReply) {
    AttachmentUrl(file, uploadReply).Success? && writeReply.Written?
  }

  /** Without a file nothing is uploaded and exactly one record is written, with an
      empty attachment URL. */
  lemma NoFileNoUpload(form: map<string, string>, uploadReply: HostReply)
    ensures SubmitEvents(form, None, uploadReply) == [Add("quotes", QuoteRecord(form, "", "pending"))]
    ensures NoUploads(SubmitEvents(form, None, uploadReply))
  {
  }

  /** With a file the upload comes first; when it fails nothing is written, and when it
      succeeds exactly one record follows it, holding the form and the host's URL. */
  lemma UploadPrecedesWrite(form: map<string, string>, f: File, uploadReply: HostReply)
    ensures var ev := SubmitEvents(form, Some(f), uploadReply);
            && ev[0] == Upload(f)
            && (!uploadReply.Uploaded? ==> ev == [Upload(f)] && NoWrites(ev))
            && (uploadReply.Uploaded? ==>
                  ev == [Upload(f), Add("quotes", QuoteRecord(form, uploadReply.secureUrl, "pending"))])
  {
  }

  /** The page's state and its log of outside calls. */
  class QuoteForm {
    var formData: map<string, string>
    var file: Option<File>
    var loading: bool
    var status: QuoteStatus
    ghost var events: seq<Event<QuoteRecord>>

    constructor()
      ensures formData == EmptyQuoteForm && file.None? && !loading && status == Idle && events == []
    {
      formData := EmptyQuoteForm;
      file := None;
      loading := false;
      status := Idle;
      events := [];
    }

    /** handleChange: the input named `name` now holds `value`. */
    method HandleChange(name: string, value: string)
      modifies this`formData
      ensures formData == ChangeField(old(formData), name, value)
    {
      formData := formData[name := value];
    }

    /** The file input: `files?.[0] || null`, so a cancelled dialog clears the file. */
    method SelectFile(chosen: Option<File>)
      modifies this`file
      ensures file == chosen
    {
      file := chosen;
    }

    /** The success panel's "Send Another Quote" button: back to the form, with the fields,
        the file and the calls made so far left as they are. */
    method SendAnother()
      modifies this`status
      ensures status == Idle
    {
      status := Idle;
    }

    method CallUpload(f: File, reply: HostReply) returns (r: Result<string, string>)
      requires loading && status == Idle
      modifies this`events
      ensures events == old(events) + [Upload(f)]
      ensures r == QuoteUpload(reply)
    {
      events := events + [Upload(f)];
      r := QuoteUpload(reply);
    }

    method CallWrite(e: Event<QuoteRecord>, reply: WriteReply) returns (ok: bool)
      requires loading && status == Idle && IsWrite(e)
      modifies this`events
      ensures events == old(events) + [e]
      ensures ok <==> reply.Written?
    {
      events := events + [e];
      ok := reply.Written?;
    }

    /** handleSubmit. Loading is set and the status reset before any outside call;
        loading is cleared afterwards on both paths. */
    method HandleSubmit(uploadReply: HostReply, writeReply: WriteReply)
      modifies this`formData, this`file, this`loading, this`status, this`events
      ensures events == old(events) + SubmitEvents(old(formData), old(file), uploadReply)
      ensures !loading
      ensures SubmitSucceeds(old(file), uploadReply, writeReply) ==>
                status == Succeeded && formData == EmptyQuoteForm && file.None?
      ensures !SubmitSucceeds(old(file), uploadReply, writeReply) ==>
                status == Failed && formData == old(formData) && file == old(file)
    {
      loading := true;
      status := Idle;
      var finalFileUrl := "";
      if file.Some? {
        var up := CallUpload(file.value, uploadReply);
        if up.Failure? {
          status := Failed;
          loading := false;
          return;
        }
        finalFileUrl := up.value;
      }
      var ok := CallWrite(Add("quotes", QuoteRecord(formData, finalFileUrl, "pending")), writeReply);
      if ok {
        status := Succeeded;
        formData := EmptyQuoteForm;
        file := None;
      } else {
        status := Failed;
      }
      loading := false;
    }
  }
}
