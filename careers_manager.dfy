/** app/components/pages/CareersManager.tsx: the job-vacancy editor of the admin
    panel. The qualification list is edited row by row; the save validates the form,
    writes one document and resets the form on success. */
module CareersManager {
  import opened Common

  // ---------------------------------------------------------------------------
  // The qualification rows
  // ---------------------------------------------------------------------------

  /** addQualification: one empty row at the end. */
  function AddQualification(quals: seq<string>): (r: seq<string>)
    ensures |r| == |quals| + 1 && r[..|quals|] == quals && r[|quals|] == ""
  {
    quals + [""]
  }

  /** removeQualification: `filter((_, i) => i !== index)`, which keeps the rows at
      every other position in order; an index that is no position removes nothing. */
  function RemoveQualification(quals: seq<string>, index: int): (r: seq<string>)
    ensures 0 <= index < |quals| ==> r == quals[..index] + quals[index + 1..]
    ensures !(0 <= index < |quals|) ==> r == quals
  {
    if quals == [] then []
    else
      var n := |quals| - 1;
      var init := RemoveQualification(quals[..n], index);
      assert quals == quals[..n] + [quals[n]];
      if n != index then init + [quals[n]] else init
  }

  /** updateQualification: a copy of the rows with the row at `index` overwritten. */
  method UpdateQualification(quals: seq<string>, index: int, value: string) returns (r: seq<string>)
    requires 0 <= index < |quals|
    ensures |r| == |quals| && r[index] == value
    ensures forall j :: 0 <= j < |quals| && j != index ==> r[j] == quals[j]
  {
    var newQuals := new string[|quals|](i requires 0 <= i < |quals| => quals[i]);
    newQuals[index] := value;
    r := newQuals[..];
  }

  /** The rows submitted: those whose trimmed text is not empty, in order. */
  function FilteredQualifications(quals: seq<string>): (r: seq<string>)
    ensures IsSubseq(r, quals)
    ensures forall q :: q in r <==> q in quals && Trim(q) != ""
    ensures forall q :: multiset(r)[q] == if Trim(q) != "" then multiset(quals)[q] else 0
  {
    var keep := (q: string) => Trim(q) != "";
    FilterCount(quals, keep);
    Filter(quals, keep)
  }

  /** A row is submitted exactly when it is not made only of white space. */
  lemma FilteredQualificationsAreNotBlank(quals: seq<string>)
    ensures forall q :: q in FilteredQualifications(quals) <==> q in quals && !IsBlank(q)
  {
    forall q | q in quals {
      TrimEmptyIffBlank(q);
    }
  }

  /** Removing the row just added restores the list. */
  lemma RemoveAfterAdd(quals: seq<string>)
    ensures RemoveQualification(AddQualification(quals), |quals|) == quals
  {
    var r := AddQualification(quals);
    assert r[..|quals|] + r[|quals| + 1..] == quals;
  }

  // ---------------------------------------------------------------------------
  // The form and the save
  // ---------------------------------------------------------------------------

  datatype JobForm = JobForm(
    editingId: Option<string>,
    jobTitle: string,
    category: string,
    jobType: string,
    location: string,
    qualifications: seq<string>,
    status: string)

  /** The form of a new vacancy: also what resetForm restores. */
  const EmptyJobForm := JobForm(None, "", "Sales", "Full Time", "", [""], "Open")

  /** The document written, without its server timestamps; `hasCreatedAt` says whether
      a `createdAt` is written besides `updatedAt`. */
  datatype JobRecord = JobRecord(
    title: string,
    category: string,
    jobType: string,
    location: string,
    qualifications: seq<string>,
    status: string,
    hasCreatedAt: bool)

  /** The stored `qualifications` value: a list, or a single value from older data. */
  datatype StoredQualifications = QualificationList(items: seq<string>) | SingleQualification(item: string)

  /** A stored vacancy as the edit button reads it. */
  datatype JobDoc = JobDoc(
    id: string,
    title: string,
    category: string,
    jobType: string,
    location: string,
    qualifications: StoredQualifications,
    status: string)

  const RequiredMessage := "Headline, Location, and at least one Qualification are required."
  const SaveErrorMessage := "Error saving job vacancy."

  /** `Array.isArray(v) ? v : [v]`: a list is used as it is, a single value becomes a
      one-row list. */
  function NormalizeQualifications(v: StoredQualifications): (r: seq<string>)
    ensures v.QualificationList? ==> r == v.items
    ensures v.SingleQualification? ==> r == [v.item]
  {
    match v
    case QualificationList(items) => items
    case SingleQualification(item) => [item]
  }

  /** The pencil button: every field is loaded from the stored vacancy. */
  function EditForm(job: JobDoc): (r: JobForm)
    ensures r.editingId == Some(job.id)
    ensures r.jobTitle == job.title && r.category == job.category && r.jobType == job.jobType
    ensures r.location == job.location && r.status == job.status
    ensures r.qualifications == NormalizeQualifications(job.qualifications)
  {
    JobForm(Some(job.id), job.title, job.category, job.jobType, job.location,
            NormalizeQualifications(job.qualifications), job.status)
  }

  /** The guard: a headline, a location, and at least one non-blank row. */
  predicate CanSubmit(f: JobForm) {
    f.jobTitle != "" && FilteredQualifications(f.qualifications) != [] && f.location != ""
  }

  /** The guard fails exactly when the headline or the location is empty, or every
      row is blank. */
  lemma CanSubmitIff(f: JobForm)
    ensures CanSubmit(f) <==>
              f.jobTitle != "" && f.location != "" && exists q :: q in f.qualifications && !IsBlank(q)
  {
    FilteredQualificationsAreNotBlank(f.qualifications);
    var r := FilteredQualifications(f.qualifications);
    if r != [] {
      assert r[0] in r;
    }
  }

  /** The record written: the form's fields with only the non-blank rows. */
  function JobData(f: JobForm): JobRecord {
    JobRecord(f.jobTitle, f.category, f.jobType, f.location,
              FilteredQualifications(f.qualifications), f.status, false)
  }

  /** The write: an update of the vacancy being edited, without createdAt, or else an
      addition carrying createdAt. */
  function SaveEvent(f: JobForm): (r: Event<JobRecord>)
    ensures IsWrite(r) && r.collection == "careers"
    ensures r.Update? <==> Truthy(f.editingId)
    ensures r.Update? ==> r.id == f.editingId.value && r.record == JobData(f)
    ensures r.Add? <==> !Truthy(f.editingId)
    ensures r.Add? ==> r.record == JobData(f).(hasCreatedAt := true)
  {
    if Truthy(f.editingId) then Update("careers", f.editingId.value, JobData(f))
    else Add("careers", JobData(f).(hasCreatedAt := true))
  }

  /** Everything the save does outside the page, in order. */
  function SubmitEvents(f: JobForm, writeReply: WriteReply): seq<Event<JobRecord>> {
    if !CanSubmit(f) then [Alert(RequiredMessage)]
    else [SaveEvent(f)] + (if writeReply.Written? then [] else [Alert(SaveErrorMessage)])
  }

  /** A failing guard only alerts; otherwise there is exactly one write, first, holding
      the non-blank rows, and an alert follows it exactly when it failed. */
  lemma SubmitEventsShape(f: JobForm, writeReply: WriteReply)
    ensures !CanSubmit(f) ==> SubmitEvents(f, writeReply) == [Alert(RequiredMessage)]
    ensures !CanSubmit(f) ==> NoWrites(SubmitEvents(f, writeReply))
    ensures CanSubmit(f) ==>
              var ev := SubmitEvents(f, writeReply);
              && IsWrite(ev[0]) && ev[0].record.qualifications == FilteredQualifications(f.qualifications)
              && ev[0].record.qualifications != []
              && NoWrites(ev[1..])
              && (|ev| == 1 <==> writeReply.Written?)
  {
  }

  /** A fresh form cannot be submitted: its title is empty and its only row blank. */
  lemma EmptyFormIsRejected()
    ensures !CanSubmit(EmptyJobForm)
    ensures FilteredQualifications(EmptyJobForm.qualifications) == []
  {
    assert TrimStart("") == "";
  }

  /** A new vacancy with a headline, a location and one non-blank row passes the guard,
      and the save adds it with that row. */
  lemma FilledNewFormIsAdded(title: string, location: string, row: string, writeReply: WriteReply)
    requires title != "" && location != "" && !IsBlank(row)
    ensures var f := EmptyJobForm.(jobTitle := title, location := location, qualifications := [row]);
            && CanSubmit(f)
            && SubmitEvents(f, writeReply)[0] == Add("careers", JobData(f).(hasCreatedAt := true))
            && JobData(f).qualifications == [row]
  {
    var f := EmptyJobForm.(jobTitle := title, location := location, qualifications := [row]);
    FilteredQualificationsAreNotBlank([row]);
    var r := FilteredQualifications([row]);
    assert row in r;
    assert multiset(r)[row] == 1;
    assert |r| <= 1;
    assert r == [row];
  }

  /** The editor: its form, the flags and the log of outside calls. */
  class CareersEditor {
    var form: JobForm
    var loading: bool
    var isModalOpen: bool
    ghost var events: seq<Event<JobRecord>>

    constructor()
      ensures form == EmptyJobForm && !loading && !isModalOpen && events == []
    {
      form := EmptyJobForm;
      loading := false;
      isModalOpen := false;
      events := [];
    }

    method AddQualificationRow()
      modifies this`form
      ensures form == old(form).(qualifications := AddQualification(old(form).qualifications))
    {
      form := form.(qualifications := AddQualification(form.qualifications));
    }

    method RemoveQualificationRow(index: int)
      modifies this`form
      ensures form == old(form).(qualifications := RemoveQualification(old(form).qualifications, index))
    {
      form := form.(qualifications := RemoveQualification(form.qualifications, index));
    }

    method UpdateQualificationRow(index: int, value: string)
      requires 0 <= index < |form.qualifications|
      modifies this`form
      ensures form.qualifications == old(form).qualifications[index := value]
      ensures form == old(form).(qualifications := form.qualifications)
    {
      var quals := UpdateQualification(form.qualifications, index, value);
      form := form.(qualifications := quals);
    }

    /** resetForm: every field back to a new vacancy. */
    method ResetForm()
      modifies this`form
      ensures form == EmptyJobForm
    {
      form := form.(editingId := None);
      form := form.(jobTitle := "");
      form := form.(category := "Sales");
      form := form.(jobType := "Full Time");
      form := form.(location := "");
      form := form.(qualifications := [""]);
      form := form.(status := "Open");
    }

    /** The "new vacancy" button. */
    method OpenNewJob()
      modifies this`form, this`isModalOpen
      ensures form == EmptyJobForm && isModalOpen
    {
      ResetForm();
      isModalOpen := true;
    }

    /** The pencil button of a listed vacancy. */
    method StartEdit(job: JobDoc)
      modifies this`form, this`isModalOpen
      ensures form == EditForm(job) && isModalOpen
    {
      form := EditForm(job);
      isModalOpen := true;
    }

    /** The headline input. */
    method EditJobTitle(value: string)
      modifies this`form
      ensures form == old(form).(jobTitle := value)
    {
      form := form.(jobTitle := value);
    }

    /** The category select. */
    method SelectCategory(value: string)
      modifies this`form
      ensures form == old(form).(category := value)
    {
      form := form.(category := value);
    }

    /** The job-type select. */
    method SelectJobType(value: string)
      modifies this`form
      ensures form == old(form).(jobType := value)
    {
      form := form.(jobType := value);
    }

    /** The location input. */
    method EditLocation(value: string)
      modifies this`form
      ensures form == old(form).(location := value)
    {
      form := form.(location := value);
    }

    /** The status select. */
    method SelectStatus(value: string)
      modifies this`form
      ensures form == old(form).(status := value)
    {
      form := form.(status := value);
    }

    /** The backdrop and the Discard button close the modal; the form is kept. */
    method Discard()
      modifies this`isModalOpen
      ensures !isModalOpen
    {
      isModalOpen := false;
    }

    /** The trash button: the delete is issued only when the dialog is confirmed. */
    method DeleteJob(id: string, confirmed: bool)
      modifies this`events
      ensures events == old(events) + ConfirmedDelete("careers", id, confirmed)
    {
      if confirmed {
        events := events + [Delete("careers", id)];
      }
    }

    method CallWrite(e: Event<JobRecord>, reply: WriteReply) returns (ok: bool)
      requires loading && IsWrite(e)
      modifies this`events
      ensures events == old(events) + [e]
      ensures ok <==> reply.Written?
    {
      events := events + [e];
      ok := reply.Written?;
    }

    /** The part of handleSubmit past the guard: one write, then a reset and close on
        success or an alert on failure. */
    method SaveJob(f: JobForm, writeReply: WriteReply)
      requires loading && form == f && CanSubmit(f)
      modifies this`form, this`isModalOpen, this`events
      ensures events == old(events) + SubmitEvents(f, writeReply)
      ensures writeReply.Written? ==> form == EmptyJobForm && !isModalOpen
      ensures !writeReply.Written? ==> form == f && isModalOpen == old(isModalOpen)
    {
      var ok := CallWrite(SaveEvent(form), writeReply);
      if ok {
        isModalOpen := false;
        ResetForm();
      } else {
        events := events + [Alert(SaveErrorMessage)];
      }
    }

    /** handleSubmit. `loading` is left alone by a failing guard, set around the write
        and cleared after it whatever the outcome. */
    method HandleSubmit(writeReply: WriteReply)
      modifies this`form, this`loading, this`isModalOpen, this`events
      ensures events == old(events) + SubmitEvents(old(form), writeReply)
      ensures loading == (if CanSubmit(old(form)) then false else old(loading))
      ensures CanSubmit(old(form)) && writeReply.Written? ==> form == EmptyJobForm && !isModalOpen
      ensures !(CanSubmit(old(form)) && writeReply.Written?) ==>
                form == old(form) && isModalOpen == old(isModalOpen)
    {
      var filteredQuals := FilteredQualifications(form.qualifications);
      if form.jobTitle == "" || |filteredQuals| == 0 || form.location == "" {
        events := events + [Alert(RequiredMessage)];
        return;
      }
      loading := true;
      SaveJob(form, writeReply);
      loading := false;
    }
  }
}
