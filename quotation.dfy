/** app/components/inquiries/Quotation.tsx: the admin inbox of quote requests. The
    list is replaced by snapshots; search and the status toggle are expressions, and
    the delete and the update are requests to the database. */
module Quotation {
  import opened Common

  /** A quote request as the inbox reads it; any field may be missing. */
  datatype Quote = Quote(
    id: string,
    firstName: Option<string>,
    lastName: Option<string>,
    email: Option<string>,
    company: Option<string>,
    status: Option<string>)

  /** The only field the toggle writes. */
  datatype StatusPatch = StatusPatch(status: string)

  /** `currentStatus === "reviewed" ? "pending" : "reviewed"`: only "reviewed" goes
      back to "pending"; every other value, a missing one included, becomes
      "reviewed". */
  function NextQuoteStatus(current: Option<string>): (r: string)
    ensures r == "pending" <==> current == Some("reviewed")
    ensures r == "reviewed" <==> current != Some("reviewed")
  {
    if current == Some("reviewed") then "pending" else "reviewed"
  }

  /** On the two statuses the inbox itself writes, the toggle is an involution. */
  lemma QuoteToggleInvolution(s: string)
    requires s == "pending" || s == "reviewed"
    ensures NextQuoteStatus(Some(NextQuoteStatus(Some(s)))) == s
  {
  }

  /** The toggle's request: an update of that quote carrying only the new status. */
  function ToggleStatusEvent(id: string, current: Option<string>): (r: Event<StatusPatch>)
    ensures r.Update? && r.collection == "quotes" && r.id == id
    ensures r.record == StatusPatch(NextQuoteStatus(current))
  {
    Update("quotes", id, StatusPatch(NextQuoteStatus(current)))
  }

  /** `${firstName} ${lastName}`: a missing name is rendered "undefined". */
  function FullName(q: Quote): (r: string)
    ensures |r| == |JsText(q.firstName)| + 1 + |JsText(q.lastName)|
  {
    JsText(q.firstName) + " " + JsText(q.lastName)
  }

  predicate QuoteMatches(q: Quote, term: string) {
    || Includes(Lower(FullName(q)), Lower(term))
    || ContainsIgnoringCase(q.email, term)
    || ContainsIgnoringCase(q.company, term)
  }

  /** filteredQuotes: an order-preserving sub-list holding exactly the quotes whose
      full name, email or company contains the term, ignoring case. */
  function FilteredQuotes(quotes: seq<Quote>, term: string): (r: seq<Quote>)
    ensures IsSubseq(r, quotes)
    ensures forall q :: q in r <==> q in quotes && QuoteMatches(q, term)
    ensures forall q :: multiset(r)[q] == if QuoteMatches(q, term) then multiset(quotes)[q] else 0
  {
    var keep := (q: Quote) => QuoteMatches(q, term);
    FilterCount(quotes, keep);
    Filter(quotes, keep)
  }

  /** The full-name string always exists, so the empty term keeps every quote, even one
      with no field at all. */
  lemma EmptyTermKeepsAllQuotes(quotes: seq<Quote>)
    ensures FilteredQuotes(quotes, "") == quotes
  {
    forall q | q in quotes ensures QuoteMatches(q, "") {
      IncludesEmpty(Lower(FullName(q)));
    }
    FilterAll(quotes, (q: Quote) => QuoteMatches(q, ""));
  }

  /** A quote without a first name is found by searching for "undefined". */
  lemma MissingFirstNameMatchesUndefined(q: Quote)
    requires q.firstName.None?
    ensures QuoteMatches(q, "undefined")
  {
    var full := Lower(FullName(q));
    assert Lower("undefined") == "undefined";
    assert full[..9] == "undefined";
    assert StartsWith(full, "undefined");
  }

  /** A subscription error ends loading and keeps the list. */
  function OnQuotesError(v: LiveView<Quote>): (r: LiveView<Quote>)
    ensures r.items == v.items && !r.loading
  {
    v.(loading := false)
  }
}
