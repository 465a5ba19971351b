/** app/components/inquiries/JobApplication.tsx: the admin inbox of job applications.
    It mirrors the quotation inbox with its own search fields and its own toggle. Its
    list follows Common.OnSnapshot; it has no error handler, so after a subscription
    error the inbox stays loading. */
module JobApplication {
  import opened Common
  import Quotation

  /** An application as the inbox reads it; any field may be missing. */
  datatype Application = Application(
    id: string,
    fullName: Option<string>,
    jobTitle: Option<string>,
    email: Option<string>,
    status: Option<string>)

  datatype StatusPatch = StatusPatch(status: string)

  /** `currentStatus === "pending" ? "reviewed" : "pending"`: only "pending" moves on
      to "reviewed"; every other value, a missing one included, becomes "pending". */
  function NextApplicationStatus(current: Option<string>): (r: string)
    ensures r == "reviewed" <==> current == Some("pending")
    ensures r == "pending" <==> current != Some("pending")
  {
    if current == Some("pending") then "reviewed" else "pending"
  }

  /** On the two statuses the inbox itself writes, the toggle is an involution. */
  lemma ApplicationToggleInvolution(s: string)
    requires s == "pending" || s == "reviewed"
    ensures NextApplicationStatus(Some(NextApplicationStatus(Some(s)))) == s
  {
  }

  /** The two inboxes agree exactly on "pending" and "reviewed"; every other value,
      a missing one included, goes to "reviewed" in the quotation inbox and to
      "pending" here. */
  lemma TogglesDifferOnUnknownStatus(current: Option<string>)
    ensures (Quotation.NextQuoteStatus(current) == NextApplicationStatus(current))
            <==> (current == Some("pending") || current == Some("reviewed"))
    ensures current != Some("pending") && current != Some("reviewed") ==>
              Quotation.NextQuoteStatus(current) == "reviewed" && NextApplicationStatus(current) == "pending"
  {
  }

  /** The toggle's request: an update of that application carrying only the new
      status. */
  function ToggleStatusEvent(id: string, current: Option<string>): (r: Event<StatusPatch>)
    ensures r.Update? && r.collection == "applications" && r.id == id
    ensures r.record == StatusPatch(NextApplicationStatus(current))
  {
    Update("applications", id, StatusPatch(NextApplicationStatus(current)))
  }

  predicate ApplicationMatches(a: Application, term: string) {
    ContainsIgnoringCase(a.fullName, term) || ContainsIgnoringCase(a.jobTitle, term)
  }

  /** filteredApps: an order-preserving sub-list holding exactly the applications whose
      name or job title contains the term, ignoring case. */
  function FilteredApps(apps: seq<Application>, term: string): (r: seq<Application>)
    ensures IsSubseq(r, apps)
    ensures forall a :: a in r <==> a in apps && ApplicationMatches(a, term)
    ensures forall a :: multiset(r)[a] == if ApplicationMatches(a, term) then multiset(apps)[a] else 0
  {
    var keep := (a: Application) => ApplicationMatches(a, term);
    FilterCount(apps, keep);
    Filter(apps, keep)
  }

  /** An application with neither name nor job title is never listed, not even for the
      empty term; for the empty term the others all are. */
  lemma EmptyTermListsExactlyNamedApps(apps: seq<Application>)
    ensures forall a :: a in FilteredApps(apps, "") <==> a in apps && (a.fullName.Some? || a.jobTitle.Some?)
  {
    forall a | a in apps
      ensures ApplicationMatches(a, "") <==> a.fullName.Some? || a.jobTitle.Some?
    {
      ContainsEmptyIffPresent(a.fullName);
      ContainsEmptyIffPresent(a.jobTitle);
    }
  }
}
