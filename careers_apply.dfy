/** app/careers/apply/page.tsx: the job-application form. It loads the vacancy named
    by the `jobId` query parameter, keeps the chosen resume, and on submit uploads the
    resume and writes one application. */
module ApplyPage {
  import opened Common
  import opened Cloudinary

  const ResumeRequiredMessage := "Please upload your resume."
  const SubmittedMessage := "Application submitted successfully!"
  const FallbackErrorMessage := "Something went wrong."
  const CareersPath := "/careers"
  const UnknownJobTitle := "Unknown"

  /** What getDoc answers for the vacancy: its title field (which a document may lack),
      no such document, or a thrown error. */
  datatype FetchReply = Found(title: Option<string>) | NotFound | FetchFailed

  /** The vacancy as loaded; only its title is used. */
  datatype JobInfo = JobInfo(title: Option<string>)

  /** The three text inputs of the form, as FormData reads them. */
  datatype ApplicantFields = ApplicantFields(fullName: string, email: string, phone: string)

  /** The document written to "applications"; `appliedAt` is always written as well. */
  datatype ApplicationRecord = ApplicationRecord(
    jobId: Option<string>,
    jobTitle: string,
    fullName: string,
    email: string,
    phone: string,
    resumeUrl: string,
    status: string)

  /** `jobData?.title || searchParams.get("jobTitle") || "Unknown"`. */
  function JobTitleFor(jobData: Option<JobInfo>, titleParam: Option<string>): (r: string)
    ensures jobData.Some? && Truthy(jobData.value.title) ==> r == jobData.value.title.value
    ensures !(jobData.Some? && Truthy(jobData.value.title)) && Truthy(titleParam) ==> r == titleParam.value
    ensures !(jobData.Some? && Truthy(jobData.value.title)) && !Truthy(titleParam) ==> r == UnknownJobTitle
  {
    if jobData.Some? && Truthy(jobData.value.title) then jobData.value.title.value
    else if Truthy(titleParam) then titleParam.value
    else UnknownJobTitle
  }

  /** The stored title is never empty. */
  lemma JobTitleNeverEmpty(jobData: Option<JobInfo>, titleParam: Option<string>)
    ensures JobTitleFor(jobData, titleParam) != ""
  {
  }

  /** `error.message || "Something went wrong."`. */
  function ErrorAlert(message: string): (r: string)
    ensures r != ""
    ensures message != "" ==> r == message
    ensures message == "" ==> r == FallbackErrorMessage
  {
    if message == "" then FallbackErrorMessage else message
  }

  /** Everything the submit does outside the page, in order. */
  function SubmitEvents(file: Option<File>, jobId: Option<string>, jobTitle: string, fields: ApplicantFields,
                        uploadReply: HostReply, writeReply: WriteReply): seq<Event<ApplicationRecord>>
  {
    if file.None? then [Alert(ResumeRequiredMessage)]
    else match UploadToCloudinary(uploadReply)
      case Failure(e) => [Upload(file.value), Alert(ErrorAlert(e))]
      case Success(url) =>
        var rec := ApplicationRecord(jobId, jobTitle, fields.fullName, fields.email, fields.phone, url, "pending");
        [Upload(file.value), Add("applications", rec)] +
        match writeReply
        case Written => [Alert(SubmittedMessage), Navigate(CareersPath)]
        case WriteFailed(m) => [Alert(ErrorAlert(m))]
  }

  /** Without a resume the submit only alerts. With one, the upload comes first; a
      failed upload means no write; otherwise exactly one application is written,
      pending, with the optimized resume URL and the query's job id, and the page
      navigates to the board only when the write succeeded. */
  lemma SubmitEventsShape(file: Option<File>, jobId: Option<string>, jobTitle: string, fields: ApplicantFields,
                          uploadReply: HostReply, writeReply: WriteReply)
    ensures var ev := SubmitEvents(file, jobId, jobTitle, fields, uploadReply, writeReply);
            && (file.None? ==> ev == [Alert(ResumeRequiredMessage)] && NoWrites(ev) && NoUploads(ev))
            && (file.Some? ==> ev[0] == Upload(file.value))
            && (file.Some? && !uploadReply.Uploaded? ==> NoWrites(ev))
            && (file.Some? && uploadReply.Uploaded? ==>
                  && ev[1].Add? && ev[1].collection == "applications"
                  && ev[1].record.status == "pending"
                  && ev[1].record.jobId == jobId
                  && ev[1].record.jobTitle == jobTitle
                  && ev[1].record.resumeUrl == OptimizeUrl(uploadReply.secureUrl)
                  && NoWrites(ev[2..])
                  && (Navigate(CareersPath) in ev <==> writeReply.Written?))
  {
    var ev := SubmitEvents(file, jobId, jobTitle, fields, uploadReply, writeReply);
    if file.Some? && uploadReply.Uploaded? {
      if !writeReply.Written? {
        assert |ev| == 3;
        assert forall i :: 0 <= i < |ev| ==> !ev[i].Navigate?;
      } else {
        assert ev[3] == Navigate(CareersPath);
      }
    }
  }

  /** The form's state and its log of outside calls. */
  class ApplyForm {
    const jobId: Option<string>
    const jobTitleParam: Option<string>
    var jobData: Option<JobInfo>
    var isSubmitting: bool
    var fileName: Option<string>
    var file: Option<File>
    var loadingJob: bool
    ghost var events: seq<Event<ApplicationRecord>>

    constructor(jobIdParam: Option<string>, titleParam: Option<string>)
      ensures jobId == jobIdParam && jobTitleParam == titleParam
      ensures jobData.None? && !isSubmitting && fileName.None? && file.None? && loadingJob && events == []
    {
      jobId := jobIdParam;
      jobTitleParam := titleParam;
      jobData := None;
      isSubmitting := false;
      fileName := None;
      file := None;
      loadingJob := true;
      events := [];
    }

    /** fetchJob. Without a job id it returns at once and `loadingJob` stays as it was;
        otherwise the vacancy is requested and `loadingJob` ends false whatever the
        answer. Only a found document replaces `jobData`. */
    method FetchJob(reply: FetchReply)
      modifies this`jobData, this`loadingJob, this`events
      ensures !Truthy(jobId) ==> jobData == old(jobData) && loadingJob == old(loadingJob) && events == old(events)
      ensures Truthy(jobId) ==> events == old(events) + [Get("careers", jobId.value)] && !loadingJob
      ensures Truthy(jobId) && reply.Found? ==> jobData == Some(JobInfo(reply.title))
      ensures !(Truthy(jobId) && reply.Found?) ==> jobData == old(jobData)
    {
      if !Truthy(jobId) {
        return;
      }
      events := events + [Get("careers", jobId.value)];
      if reply.Found? {
        jobData := Some(JobInfo(reply.title));
      }
      loadingJob := false;
    }

    /** handleFileChange: a chosen file replaces the name and the file; a cancelled
        dialog changes nothing. */
    method HandleFileChange(chosen: Option<File>)
      modifies this`fileName, this`file
      ensures chosen.Some? ==> fileName == Some(chosen.value.name) && file == chosen
      ensures chosen.None? ==> fileName == old(fileName) && file == old(file)
    {
      if chosen.Some? {
        fileName := Some(chosen.value.name);
        file := chosen;
      }
    }

    method CallUpload(f: File, reply: HostReply) returns (r: Result<string, string>)
      requires isSubmitting
      modifies this`events
      ensures events == old(events) + [Upload(f)]
      ensures r == UploadToCloudinary(reply)
    {
      events := events + [Upload(f)];
      r := UploadToCloudinary(reply);
    }

    method CallWrite(e: Event<ApplicationRecord>, reply: WriteReply) returns (ok: bool)
      requires isSubmitting && IsWrite(e)
      modifies this`events
      ensures events == old(events) + [e]
      ensures ok <==> reply.Written?
    {
      events := events + [e];
      ok := reply.Written?;
    }

    /** handleSubmit. Without a resume `isSubmitting` is left alone; otherwise it is set
        before the upload and cleared after either outcome. */
    method HandleSubmit(fields: ApplicantFields, uploadReply: HostReply, writeReply: WriteReply)
      modifies this`isSubmitting, this`events
      ensures events == old(events) + SubmitEvents(file, jobId, JobTitleFor(jobData, jobTitleParam), fields, uploadReply, writeReply)
      ensures isSubmitting == (if file.None? then old(isSubmitting) else false)
    {
      if file.None? {
        events := events + [Alert(ResumeRequiredMessage)];
        return;
      }
      isSubmitting := true;
      var up := CallUpload(file.value, uploadReply);
      if up.Failure? {
        events := events + [Alert(ErrorAlert(up.error))];
        isSubmitting := false;
        return;
      }
      var rec := ApplicationRecord(jobId, JobTitleFor(jobData, jobTitleParam),
                                   fields.fullName, fields.email, fields.phone, up.value, "pending");
      var ok := CallWrite(Add("applications", rec), writeReply);
      if ok {
        events := events + [Alert(SubmittedMessage), Navigate(CareersPath)];
      } else {
        events := events + [Alert(ErrorAlert(writeReply.message))];
      }
      isSubmitting := false;
    }
  }
}
