/** app/components/inquiries/CustomerInquiries.tsx: the admin inbox of contact-form
    inquiries, with a detail panel for one selected inquiry. */
module CustomerInquiries {
  import opened Common

  /** A stored inquiry; `submittedAt` is the server timestamp, of an opaque type T. */
  datatype Inquiry<T> = Inquiry(
    id: string,
    fullName: Option<string>,
    email: Option<string>,
    phone: Option<string>,
    message: Option<string>,
    submittedAt: Option<T>)

  /** formatFullDate: "---" for a missing timestamp; otherwise the date as the locale
      formatter (an input of the model) writes it. */
  function FormatFullDate<T>(timestamp: Option<T>, format: T -> string): (r: string)
    ensures timestamp.None? ==> r == "---"
    ensures timestamp.Some? ==> r == format(timestamp.value)
  {
    if timestamp.None? then "---" else format(timestamp.value)
  }

  predicate InquiryMatches<T>(item: Inquiry<T>, term: string) {
    ContainsIgnoringCase(item.fullName, term) || ContainsIgnoringCase(item.email, term)
  }

  /** filteredInquiries: an order-preserving sub-list holding exactly the inquiries
      whose name or email contains the term, ignoring case. */
  function FilteredInquiries<T(==,!new)>(inquiries: seq<Inquiry<T>>, term: string): (r: seq<Inquiry<T>>)
    ensures IsSubseq(r, inquiries)
    ensures forall i :: i in r <==> i in inquiries && InquiryMatches(i, term)
    ensures forall i :: multiset(r)[i] == if InquiryMatches(i, term) then multiset(inquiries)[i] else 0
  {
    var keep := (i: Inquiry<T>) => InquiryMatches(i, term);
    FilterCount(inquiries, keep);
    Filter(inquiries, keep)
  }

  /** An inquiry with neither name nor email is never listed, not even for the empty
      term; for the empty term the others all are. */
  lemma EmptyTermListsExactlyNamedInquiries<T(!new)>(inquiries: seq<Inquiry<T>>)
    ensures forall i :: i in FilteredInquiries(inquiries, "") <==>
              i in inquiries && (i.fullName.Some? || i.email.Some?)
  {
    forall i | i in inquiries
      ensures InquiryMatches(i, "") <==> i.fullName.Some? || i.email.Some?
    {
      ContainsEmptyIffPresent(i.fullName);
      ContainsEmptyIffPresent(i.email);
    }
  }

  /** The inbox's state and its log of delete requests. */
  class InquiriesInbox<T(==,!new)> {
    var inquiries: seq<Inquiry<T>>
    var loading: bool
    var searchTerm: string
    var selectedInquiry: Option<Inquiry<T>>
    ghost var events: seq<Event<()>>

    constructor()
      ensures inquiries == [] && loading && searchTerm == "" && selectedInquiry.None? && events == []
    {
      inquiries := [];
      loading := true;
      searchTerm := "";
      selectedInquiry := None;
      events := [];
    }

    /** A snapshot replaces the list wholesale and ends loading; the selection, a copy
        of an earlier snapshot's item, is kept. */
    method OnInquiriesSnapshot(docs: seq<Inquiry<T>>)
      modifies this`inquiries, this`loading
      ensures inquiries == docs && !loading
    {
      inquiries := docs;
      loading := false;
    }

    /** The search box: the term becomes the typed text. */
    method SetSearchTerm(term: string)
      modifies this`searchTerm
      ensures searchTerm == term
    {
      searchTerm := term;
    }

    /** The rows rendered: none while loading, then the inquiries matching the term. */
    function Shown(): (r: seq<Inquiry<T>>)
      reads this
      ensures loading ==> r == []
      ensures !loading ==> IsSubseq(r, inquiries)
      ensures !loading ==> forall i :: i in r <==> i in inquiries && InquiryMatches(i, searchTerm)
    {
      if loading then [] else FilteredInquiries(inquiries, searchTerm)
    }

    /** A row or its eye button opens the detail panel. */
    method Select(item: Inquiry<T>)
      modifies this`selectedInquiry
      ensures selectedInquiry == Some(item)
    {
      selectedInquiry := Some(item);
    }

    /** The backdrop, the cross and the close button empty the selection. */
    method CloseDetails()
      modifies this`selectedInquiry
      ensures selectedInquiry.None?
    {
      selectedInquiry := None;
    }

    /** deleteInquiry. Nothing happens unless the dialog is confirmed; after a delete
        that succeeded the panel closes exactly when it showed the deleted inquiry; a
        failed delete is only logged to the console. */
    method DeleteInquiry(id: string, confirmed: bool, reply: WriteReply)
      modifies this`events, this`selectedInquiry
      ensures !confirmed ==> events == old(events)
      ensures confirmed ==> events == old(events) + [Delete("inquiries", id)]
      ensures (confirmed && reply.Written? && old(selectedInquiry).Some? && old(selectedInquiry).value.id == id) ==>
                selectedInquiry.None?
      ensures !(confirmed && reply.Written? && old(selectedInquiry).Some? && old(selectedInquiry).value.id == id) ==>
                selectedInquiry == old(selectedInquiry)
    {
      if confirmed {
        events := events + [Delete("inquiries", id)];
        if reply.Written? {
          if selectedInquiry.Some? && selectedInquiry.value.id == id {
            selectedInquiry := None;
          }
        }
      }
    }
  }
}
