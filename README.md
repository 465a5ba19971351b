# Disruptive Solutions site: a Dafny model of its page logic

This project models the client-side logic of a lighting company's Next.js site and its admin
panel, and proves properties of that model. The site reads and writes a document database and
uploads images to a media host. The parts modelled are:

- the quote cart of the product catalogue, kept in browser-local storage, and the catalogue's
  search box and brand tabs;
- the admin list editors: the story editor (content blocks, slug, cover and block uploads, one
  save) and the job-vacancy editor (qualification rows, validation, one save);
- the three admin inboxes (quote requests, job applications, customer inquiries): search,
  status toggles, deletes and the live list;
- the public form pipelines: the quote request (optional attachment upload, then one write), the
  job application (vacancy lookup, resume upload, one write, navigation) and the contact form
  (one write, status shown for five seconds);
- the public vacancy board (open vacancies only, category tabs, expandable cards);
- the per-brand product fetch loop of the brand showcase;
- the admin panel's view routing from the sidebar;
- the shared uploader, which rewrites the host's URL to request automatic format and quality.

## How the model is built

- **Outside services are inputs.** A media-host answer is a `HostReply`: an uploaded URL, a
  rejection with a message, or an unreachable host. A database write answer is a `WriteReply`.
  The answers of `getDoc`/`getDocs` are `FetchReply`/`QueryReply`, and the answer of a confirm
  dialog is a `bool`. Each of these is a parameter of the operation that consumes it.
- **Calls are logged.** What a page asks of the outside (uploads, adds, updates, deletes,
  reads, alerts, navigation, timers) is appended, in order, to a ghost `events` log on the
  page's class.
- **Flags are checked during calls.** The small `CallUpload`/`CallWrite` methods require the
  page's busy flag (`loading`, `isSubmitting`, or status `Loading`). So the verifier checks that
  the flag is set whenever a call is made.
- **Pipelines have a specification function.** Each submit pipeline is specified by a pure
  function (`SubmitEvents`) giving the whole event sequence for given answers. The method is
  proved to append exactly that sequence. Lemmas then state what the sequence guarantees: no
  write after a failed upload, at most one write, uploads before the write, and the contents of
  the record.
- **Component form follows the source.** Pages whose handlers update state step by step are
  classes with `modifies` clauses. Pages whose state is rebuilt wholesale from snapshots and
  clicks (the vacancy board, the two status inboxes, the admin panel) are datatypes and
  functions.
- **The JavaScript built-ins used are written out.** This covers `filter`, `new Set`, `includes`,
  `indexOf`/`replace` with a string pattern, `trim` and optional chaining (`x?.…`, a missing
  value never matches). `toLowerCase` is modelled as ASCII case folding (see Left out).

On the vacancy board, `app/careers/page.tsx` computes the category list (line 44) and filters by
`activeCategory` (line 108), but it never renders the tabs and never changes `activeCategory`
from "All". No operation of the model changes the active category; properties of the category
list are proved about the computed value.

## Model

| member | source | states |
|---|---|---|
| Common.TrimEmptyIffBlank | app/components/pages/CareersManager.tsx:51 | `q.trim() === ""` holds exactly for strings made only of white space and line terminators |
| Common.ContainsEmptyIffPresent | app/components/inquiries/JobApplication.tsx:72-73 | `x?.toLowerCase().includes("")` is true exactly when the field is present |
| Common.IncludesIffOccurs | app/lighting-products-smart-solutions/page.tsx:105-107 | `s.includes(t)` holds exactly when `t` occurs at some position of `s` |
| Common.Distinct | app/careers/page.tsx:44 | `Array.from(new Set(s))` has the same elements as `s`, each once, ordered by the position of each value's first appearance in `s` |
| Common.DistinctFirstAppearance | app/careers/page.tsx:44 | appending a value already present leaves the set's list unchanged (first appearance wins) |
| Common.Subscribed | app/components/inquiries/Quotation.tsx:31-32 | a live list starts loading and empty (also the job-application inbox) |
| Common.OnSnapshot | app/components/inquiries/Quotation.tsx:40-46 | a pushed snapshot replaces the list wholesale and ends loading (also JobApplication.tsx lines 38-45) |
| Common.Filter | app/careers/page.tsx:35 | `filter` gives an order-preserving sub-list whose elements are exactly those satisfying the predicate |
| Common.FilterCount | app/careers/page.tsx:35 | `filter` keeps every copy of a passing element and no copy of a failing one |
| Common.ConfirmedDelete | app/components/inquiries/Quotation.tsx:56-64 | a confirm-guarded delete issues at most one call, a delete of that document, and issues it exactly when the dialog is confirmed (also JobApplication.tsx lines 51-59, BlogManager.tsx line 169, CareersManager.tsx line 158) |
| Cloudinary.IndexOf | lib/cloudinary.ts:34 | the position found is an occurrence of the pattern and no earlier position is one; none means no occurrence |
| Cloudinary.OptimizeUrlRewritesFirst | lib/cloudinary.ts:34 | only the first "/upload/" becomes "/upload/f_auto,q_auto/"; the text before and after it is kept |
| Cloudinary.OptimizeUrlWithoutSegment | lib/cloudinary.ts:34 | a URL without "/upload/" is returned unchanged |
| Cloudinary.OptimizeUrlLength | lib/cloudinary.ts:34 | when "/upload/" occurs, the returned URL is 14 characters longer |
| Cloudinary.UploadToCloudinary | lib/cloudinary.ts:26-37 | success exactly on an uploaded reply; a rejection throws its message or "Failed to upload to Cloudinary" when the message is empty; an unreachable host throws fetch's error |
| Cloudinary.UploadedUrlIsOptimized | lib/cloudinary.ts:31-34 | every URL returned has been through the rewrite, and a failed upload returns none |
| LightingProducts.ReadCart | app/lighting-products-smart-solutions/page.tsx:121-123 | a missing or empty value reads as the empty cart, a stored list as itself, and an unparsable value throws |
| LightingProducts.WithProduct | app/lighting-products-smart-solutions/page.tsx:124-125 | the product is appended exactly when no item has its id; afterwards its id is present |
| LightingProducts.WithoutId | app/lighting-products-smart-solutions/page.tsx:138 | every item with the id is dropped, and every copy of the others is kept, in order |
| LightingProducts.AddIdempotent | app/lighting-products-smart-solutions/page.tsx:120-132 | adding the same product twice stores the same list as adding it once |
| LightingProducts.AddKeepsIdsDistinct | app/lighting-products-smart-solutions/page.tsx:124-125 | adding never creates two items with the same id |
| LightingProducts.RemoveAbsent | app/lighting-products-smart-solutions/page.tsx:134-141 | removing an absent id stores the list unchanged |
| LightingProducts.RemoveAfterAdd | app/lighting-products-smart-solutions/page.tsx:120-141 | adding a new product and then removing its id restores the previous list |
| LightingProducts.FilteredProducts | app/lighting-products-smart-solutions/page.tsx:104-115 | the shown products are an order-preserving sub-list holding every copy of each product matching both the search (case-insensitive, name present) and the brand tab, and no other |
| LightingProducts.EmptySearchShowsNamedProducts | app/lighting-products-smart-solutions/page.tsx:104-115 | with an empty search and the "All" tab every named product is shown, in order |
| LightingProducts.CataloguePage.constructor | app/lighting-products-smart-solutions/page.tsx:73-76 | mounting starts empty and loading, then reads the stored cart |
| LightingProducts.CataloguePage.SyncCart | app/lighting-products-smart-solutions/page.tsx:60-71 | the cart becomes the stored one, the empty cart when none is stored, and is unchanged when the value cannot be parsed |
| LightingProducts.CataloguePage.DispatchCartUpdated | app/lighting-products-smart-solutions/page.tsx:76 | the "cartUpdated" signal is logged and the page's listener re-reads the cart |
| LightingProducts.CataloguePage.AddToQuote | app/lighting-products-smart-solutions/page.tsx:120-132 | on a corrupt value nothing changes (it throws); on a present id nothing is written or signalled; otherwise the list plus the product is stored, signalled and shown |
| LightingProducts.CataloguePage.RemoveFromQuote | app/lighting-products-smart-solutions/page.tsx:134-141 | the filtered list is always stored and signalled, even for an absent id; a corrupt value throws before any write |
| LightingProducts.CataloguePage.OnProductsSnapshot | app/lighting-products-smart-solutions/page.tsx:91-97 | a snapshot replaces the product list and ends loading |
| LightingProducts.CataloguePage.SetSearchQuery | app/lighting-products-smart-solutions/page.tsx:278 | the search box sets the query, and the grid becomes FilteredProducts under the new query |
| LightingProducts.CataloguePage.SelectTab | app/lighting-products-smart-solutions/page.tsx:284-287 | a tab button sets the active brand, and the grid becomes FilteredProducts under the new tab |
| LightingProducts.CataloguePage.Shown | app/lighting-products-smart-solutions/page.tsx:104-115 | the grid holds, in order, every copy of each loaded product that matches the search and the active tab, and no other |
| BlogManager.AddParagraph | app/components/pages/BlogManager.tsx:46-48 | the blocks are kept and one paragraph block with an empty text and the given id follows them |
| BlogManager.AddImageDetail | app/components/pages/BlogManager.tsx:50-52 | the blocks are kept and one image block with empty title, text and URL follows them |
| BlogManager.RemoveSection | app/components/pages/BlogManager.tsx:54-56 | every block with the id goes, and every copy of the others stays, in order |
| BlogManager.Merge | app/components/pages/BlogManager.tsx:59 | the keys the patch has override the block's; id and kind are kept |
| BlogManager.UpdateSection | app/components/pages/BlogManager.tsx:58-60 | the blocks with the id are merged with the patch; all others, and every id and kind, are unchanged |
| BlogManager.RemoveAfterAddParagraph | app/components/pages/BlogManager.tsx:46-56 | removing a freshly added block with a new id restores the blocks |
| BlogManager.RemoveNoMatch | app/components/pages/BlogManager.tsx:54-56 | removing an id no block has changes nothing |
| BlogManager.RemoveDropsCollidingBlocks | app/components/pages/BlogManager.tsx:46-56 | two blocks added with the same clock id are both removed by one remove |
| BlogManager.RemoveAfterUpdate | app/components/pages/BlogManager.tsx:54-60 | updating and then removing an id equals removing it |
| BlogManager.UpdateIdempotent | app/components/pages/BlogManager.tsx:58-60 | applying a patch twice equals applying it once |
| BlogManager.StripNonWord | app/components/pages/BlogManager.tsx:88 | every occurrence of a character that is neither a word character nor a space is removed, and every occurrence of the others stays, in order |
| BlogManager.HyphenateShape | app/components/pages/BlogManager.tsx:88 | replacing space runs leaves no space and no two adjacent hyphens, and adds only hyphens |
| BlogManager.HyphenateWithoutSpaces | app/components/pages/BlogManager.tsx:88 | a text without spaces is unchanged by the hyphenation |
| BlogManager.HyphenateKeepsContent | app/components/pages/BlogManager.tsx:88 | on a hyphen-free text, erasing the hyphens from the result gives the text with its spaces erased: every other character survives, in order |
| BlogManager.LowerHasNoCapital | app/components/pages/BlogManager.tsx:88 | lower-casing leaves no capital letter |
| BlogManager.SlugShape | app/components/pages/BlogManager.tsx:88 | every slug uses only `[a-z0-9_-]`, holds no space and never two adjacent hyphens |
| BlogManager.SlugOfPlainWord | app/components/pages/BlogManager.tsx:88 | a headline already made of `[a-z0-9_]` is its own slug |
| BlogManager.UploadedSections | app/components/pages/BlogManager.tsx:73-79 | each image block with a picked file takes the optimized uploaded URL and loses the file; every other block is kept, in order |
| BlogManager.NothingPendingKeepsSections | app/components/pages/BlogManager.tsx:73-79 | with no picked file, nothing is uploaded and the blocks are saved as they are |
| BlogManager.UploadSections | app/components/pages/BlogManager.tsx:73-79 | every pending file's upload is started in block order, whatever another upload answers; there is a result exactly when all succeeded, and it is the uploaded blocks |
| BlogManager.PendingFilesArePicked | app/components/pages/BlogManager.tsx:73-79 | the files uploaded are the picked files of the image blocks that hold one, one per block and in block order |
| BlogManager.ResetBlogForm | app/components/pages/BlogManager.tsx:107-114 | the form goes back to a new story except for the category |
| BlogManager.ResetKeepsOnlyCategory | app/components/pages/BlogManager.tsx:107-114 | a reset form is the initial form with the old category, whatever the other fields were |
| BlogManager.EditForm | app/components/pages/BlogManager.tsx:164-167 | the stored story is loaded: a missing or empty status reads "Published", missing blocks read as none, and the picked cover file is kept |
| BlogManager.CoverUpload | app/components/pages/BlogManager.tsx:68-71 | the stored cover without a picked file; otherwise success exactly when the upload succeeded, with its optimized URL |
| BlogManager.SaveEvent | app/components/pages/BlogManager.tsx:91-95 | an update of the edited story without createdAt, or an add with createdAt, exactly when no story is being edited |
| BlogManager.GuardFailureMakesNoCalls | app/components/pages/BlogManager.tsx:64 | without a headline or a cover, the save only alerts: no upload and no write |
| BlogManager.PickedCoverIsUploadedFirst | app/components/pages/BlogManager.tsx:64-71 | with a headline, a picked cover passes the guard and is the first file the save uploads |
| BlogManager.SubmitEventsPastGuard | app/components/pages/BlogManager.tsx:66-104 | past the guard, a failed cover upload ends the save with an alert; otherwise the blocks and the write follow, and the story is saved exactly when they succeed |
| BlogManager.NoWriteAfterFailedUpload | app/components/pages/BlogManager.tsx:62-104 | a failed cover or block upload means no write; a failed cover upload also means no block upload is started |
| BlogManager.NoWritesWhenNotSaving | app/components/pages/BlogManager.tsx:62-104 | unless the guard and every upload succeed, nothing is written |
| BlogManager.OneWriteAfterUploads | app/components/pages/BlogManager.tsx:68-95 | a save writes at most once, and every upload comes before that write |
| BlogManager.SavedEventsShape | app/components/pages/BlogManager.tsx:66-98 | when the guard and every upload succeed, the calls are the cover upload, the block uploads, the one write and an alert exactly when the write failed |
| BlogManager.WrittenRecord | app/components/pages/BlogManager.tsx:81-95 | the one write carries the headline, category, status, the new or stored cover, the uploaded blocks and the headline's slug; an alert follows it exactly when it failed |
| BlogManager.BlogEditor.constructor | app/components/pages/BlogManager.tsx:26-36 | the editor starts with a new-story form, closed and idle |
| BlogManager.BlogEditor.EditHeadline | app/components/pages/BlogManager.tsx:206-212 | only the headline changes, to the typed text |
| BlogManager.BlogEditor.SelectCategory | app/components/pages/BlogManager.tsx:217 | only the category changes, to the chosen option |
| BlogManager.BlogEditor.SelectVisibility | app/components/pages/BlogManager.tsx:223 | only the status changes, to the chosen option |
| BlogManager.BlogEditor.PickCover | app/components/pages/BlogManager.tsx:230-233 | a chosen file becomes the cover to upload and its object URL the preview; a cancelled dialog changes nothing |
| BlogManager.BlogEditor.Discard | app/components/pages/BlogManager.tsx:182 | the backdrop and the Discard button (line 195) close the modal and keep the form |
| BlogManager.BlogEditor.AddParagraphSection | app/components/pages/BlogManager.tsx:46-48 | only the blocks change, by AddParagraph |
| BlogManager.BlogEditor.AddImageDetailSection | app/components/pages/BlogManager.tsx:50-52 | only the blocks change, by AddImageDetail |
| BlogManager.BlogEditor.RemoveSectionById | app/components/pages/BlogManager.tsx:54-56 | only the blocks change, by RemoveSection |
| BlogManager.BlogEditor.UpdateSectionById | app/components/pages/BlogManager.tsx:58-60 | only the blocks change, by UpdateSection |
| BlogManager.BlogEditor.ResetForm | app/components/pages/BlogManager.tsx:107-114 | the form becomes ResetBlogForm of the old form |
| BlogManager.BlogEditor.OpenNewStory | app/components/pages/BlogManager.tsx:125 | the form is reset and the modal opens |
| BlogManager.BlogEditor.StartEdit | app/components/pages/BlogManager.tsx:164-167 | the form becomes the stored story's and the modal opens |
| BlogManager.BlogEditor.DeleteStory | app/components/pages/BlogManager.tsx:169 | the calls made are ConfirmedDelete of the story |
| BlogManager.BlogEditor.SettleCover | app/components/pages/BlogManager.tsx:68-71 | the cover upload is made only for a picked file, and the result is CoverUpload |
| BlogManager.BlogEditor.SaveSectionsAndWrite | app/components/pages/BlogManager.tsx:73-104 | the block uploads, the write and the alerts happen as SectionsAndWriteEvents says; the form is reset and closed exactly when everything succeeded |
| BlogManager.BlogEditor.SaveStory | app/components/pages/BlogManager.tsx:66-104 | past the guard, the calls are those of SubmitEvents; the form is reset and closed exactly when the story was saved |
| BlogManager.BlogEditor.HandleSubmit | app/components/pages/BlogManager.tsx:62-105 | the calls are exactly SubmitEvents; loading is false after any save attempt; the form is reset and the modal closed exactly when the story was saved, and otherwise both are unchanged |
| CareersManager.AddQualification | app/components/pages/CareersManager.tsx:37 | the rows are kept and one empty row follows |
| CareersManager.RemoveQualification | app/components/pages/CareersManager.tsx:39-41 | the row at the index is dropped and the rest keep their order; an index that is no position removes nothing |
| CareersManager.UpdateQualification | app/components/pages/CareersManager.tsx:43-47 | a copy with the row at the index overwritten and every other row kept |
| CareersManager.FilteredQualifications | app/components/pages/CareersManager.tsx:51 | the submitted rows are an order-preserving sub-list holding every copy of each row whose trimmed text is not empty, and no other |
| CareersManager.FilteredQualificationsAreNotBlank | app/components/pages/CareersManager.tsx:51 | a row is submitted exactly when it is not blank |
| CareersManager.RemoveAfterAdd | app/components/pages/CareersManager.tsx:37-41 | removing the row just added restores the rows |
| CareersManager.NormalizeQualifications | app/components/pages/CareersManager.tsx:155 | a stored list is used as it is; a single value becomes a one-row list |
| CareersManager.EditForm | app/components/pages/CareersManager.tsx:152-156 | every field is loaded from the stored vacancy, with the rows normalized |
| CareersManager.CanSubmitIff | app/components/pages/CareersManager.tsx:51-55 | the save proceeds exactly when headline and location are non-empty and some row is not blank |
| CareersManager.SaveEvent | app/components/pages/CareersManager.tsx:59-73 | an update of the edited vacancy without createdAt, or an add with createdAt, exactly when none is being edited |
| CareersManager.SubmitEventsShape | app/components/pages/CareersManager.tsx:49-83 | a failing guard only alerts; otherwise exactly one write comes first, holding the non-empty non-blank rows, and an alert follows exactly when it failed |
| CareersManager.EmptyFormIsRejected | app/components/pages/CareersManager.tsx:22-27 | a fresh form cannot be saved: its only row is blank |
| CareersManager.FilledNewFormIsAdded | app/components/pages/CareersManager.tsx:49-73 | a new vacancy with a headline, a location and one non-blank row passes the guard and is added with exactly that row |
| CareersManager.CareersEditor.constructor | app/components/pages/CareersManager.tsx:22-27 | the editor starts with the new-vacancy form, closed and idle |
| CareersManager.CareersEditor.EditJobTitle | app/components/pages/CareersManager.tsx:198 | only the headline changes, to the typed text |
| CareersManager.CareersEditor.SelectCategory | app/components/pages/CareersManager.tsx:208 | only the category changes, to the chosen option |
| CareersManager.CareersEditor.SelectJobType | app/components/pages/CareersManager.tsx:214 | only the job type changes, to the chosen option |
| CareersManager.CareersEditor.EditLocation | app/components/pages/CareersManager.tsx:223 | only the location changes, to the typed text |
| CareersManager.CareersEditor.SelectStatus | app/components/pages/CareersManager.tsx:227 | only the status changes, to the chosen option |
| CareersManager.CareersEditor.Discard | app/components/pages/CareersManager.tsx:171 | the backdrop and the Discard button (line 184) close the modal and keep the form |
| CareersManager.CareersEditor.AddQualificationRow | app/components/pages/CareersManager.tsx:37 | only the rows change, by AddQualification |
| CareersManager.CareersEditor.RemoveQualificationRow | app/components/pages/CareersManager.tsx:39-41 | only the rows change, by RemoveQualification |
| CareersManager.CareersEditor.UpdateQualificationRow | app/components/pages/CareersManager.tsx:43-47 | only the row at the index changes |
| CareersManager.CareersEditor.ResetForm | app/components/pages/CareersManager.tsx:85-93 | every field goes back to a new vacancy |
| CareersManager.CareersEditor.OpenNewJob | app/components/pages/CareersManager.tsx:104 | the form is reset and the modal opens |
| CareersManager.CareersEditor.StartEdit | app/components/pages/CareersManager.tsx:152-157 | the form becomes the stored vacancy's and the modal opens |
| CareersManager.CareersEditor.DeleteJob | app/components/pages/CareersManager.tsx:158 | the calls made are ConfirmedDelete of the vacancy |
| CareersManager.CareersEditor.SaveJob | app/components/pages/CareersManager.tsx:57-82 | past the guard, the calls are those of SubmitEvents; the form is reset and the modal closed exactly when the write succeeded |
| CareersManager.CareersEditor.HandleSubmit | app/components/pages/CareersManager.tsx:49-83 | the calls are exactly SubmitEvents; loading is false after a write; the form is reset and closed exactly when the write succeeded, and otherwise both are unchanged |
| CareersPage.OpenJobs | app/careers/page.tsx:35 | a snapshot is cut to an order-preserving sub-list holding every copy of each vacancy with status "Open", and no other |
| CareersPage.OnJobsSnapshot | app/careers/page.tsx:33-36 | each snapshot replaces the list with its open vacancies and ends loading |
| CareersPage.OnSubscriptionError | app/careers/page.tsx:37 | an error ends loading and keeps the list |
| CareersPage.ListedJobsAreOpen | app/careers/page.tsx:33-36 | only open vacancies are ever listed |
| CareersPage.CategoryList | app/careers/page.tsx:44 | one category per vacancy, in order |
| CareersPage.Categories | app/careers/page.tsx:44 | the tabs are "All" followed by each vacancy category once, ordered by first appearance in the list |
| CareersPage.CategoriesCoverJobs | app/careers/page.tsx:44 | every vacancy's category is a tab, and every tab after "All" is some vacancy's category |
| CareersPage.CategoriesDistinctIff | app/careers/page.tsx:44 | the tabs are distinct exactly when no vacancy is itself categorised "All" |
| CareersPage.JobsInTab | app/careers/page.tsx:108 | an order-preserving sub-list holding every copy of each vacancy in the tab (of every vacancy under "All"), and no other |
| CareersPage.AllTabShowsEveryJob | app/careers/page.tsx:108 | under "All" the whole list is shown |
| CareersPage.OfferedTabsAreNonEmpty | app/careers/page.tsx:44 | for a non-empty list of open vacancies, every tab in the computed list shows at least one vacancy (an empty board still offers "All", which shows none) |
| CareersPage.ToggleExpanded | app/careers/page.tsx:124 | clicking closes the expanded card, or else makes the clicked card the only expanded one |
| CareersPage.ToggleTwice | app/careers/page.tsx:124 | a second click on the same card restores the state when no other card was open |
| CareersPage.ClickCard | app/careers/page.tsx:124 | only the expanded card changes |
| CareersPage.Shown | app/careers/page.tsx:102-108 | placeholders only while loading, then the active tab's vacancies |
| Quotation.NextQuoteStatus | app/components/inquiries/Quotation.tsx:68 | "reviewed" goes to "pending" and every other value, a missing one included, to "reviewed" |
| Quotation.QuoteToggleInvolution | app/components/inquiries/Quotation.tsx:67-68 | on "pending" and "reviewed" two toggles restore the status |
| Quotation.ToggleStatusEvent | app/components/inquiries/Quotation.tsx:67-74 | one update of that quote, carrying only the new status |
| Quotation.FullName | app/components/inquiries/Quotation.tsx:77 | the two names joined by a space, a missing one written "undefined" |
| Quotation.FilteredQuotes | app/components/inquiries/Quotation.tsx:76-80 | an order-preserving sub-list holding every copy of each quote whose full name, email or company contains the term, ignoring case, and no other |
| Quotation.EmptyTermKeepsAllQuotes | app/components/inquiries/Quotation.tsx:76-80 | the empty term lists every quote, even one with no field |
| Quotation.MissingFirstNameMatchesUndefined | app/components/inquiries/Quotation.tsx:77 | a quote without a first name is found by searching "undefined" |
| Quotation.OnQuotesError | app/components/inquiries/Quotation.tsx:47-50 | an error ends loading and keeps the list |
| JobApplication.NextApplicationStatus | app/components/inquiries/JobApplication.tsx:63 | "pending" goes to "reviewed" and every other value, a missing one included, to "pending" |
| JobApplication.ApplicationToggleInvolution | app/components/inquiries/JobApplication.tsx:62-63 | on "pending" and "reviewed" two toggles restore the status |
| JobApplication.TogglesDifferOnUnknownStatus | app/components/inquiries/JobApplication.tsx:63 | the two inboxes' toggles agree exactly on "pending" and "reviewed" and disagree on every other value |
| JobApplication.ToggleStatusEvent | app/components/inquiries/JobApplication.tsx:62-69 | one update of that application, carrying only the new status |
| JobApplication.FilteredApps | app/components/inquiries/JobApplication.tsx:71-74 | an order-preserving sub-list holding every copy of each application whose name or job title contains the term, ignoring case, and no other |
| JobApplication.EmptyTermListsExactlyNamedApps | app/components/inquiries/JobApplication.tsx:71-74 | the empty term lists exactly the applications with a name or a job title |
| CustomerInquiries.FormatFullDate | app/components/inquiries/CustomerInquiries.tsx:69-73 | "---" for a missing timestamp, otherwise the formatter's text |
| CustomerInquiries.FilteredInquiries | app/components/inquiries/CustomerInquiries.tsx:75-78 | an order-preserving sub-list holding every copy of each inquiry whose name or email contains the term, ignoring case, and no other |
| CustomerInquiries.EmptyTermListsExactlyNamedInquiries | app/components/inquiries/CustomerInquiries.tsx:75-78 | the empty term lists exactly the inquiries with a name or an email |
| CustomerInquiries.InquiriesInbox.constructor | app/components/inquiries/CustomerInquiries.tsx:37-40 | the inbox starts loading, empty, with no search and no selection |
| CustomerInquiries.InquiriesInbox.OnInquiriesSnapshot | app/components/inquiries/CustomerInquiries.tsx:45-52 | a snapshot replaces the list and ends loading |
| CustomerInquiries.InquiriesInbox.SetSearchTerm | app/components/inquiries/CustomerInquiries.tsx:101 | the search box sets the term |
| CustomerInquiries.InquiriesInbox.Shown | app/components/inquiries/CustomerInquiries.tsx:75-84 | no rows while loading; then an order-preserving sub-list holding exactly the inquiries whose name or email contains the term |
| CustomerInquiries.InquiriesInbox.Select | app/components/inquiries/CustomerInquiries.tsx:117 | the clicked inquiry becomes the selection |
| CustomerInquiries.InquiriesInbox.CloseDetails | app/components/inquiries/CustomerInquiries.tsx:191 | the selection is emptied |
| CustomerInquiries.InquiriesInbox.DeleteInquiry | app/components/inquiries/CustomerInquiries.tsx:57-67 | a delete only when confirmed; the panel closes exactly when the delete succeeded and it showed that inquiry |
| QuotePage.ChangeField | app/quote/page.tsx:72-74 | the named field takes the value and every other field keeps its value |
| QuotePage.ChangeKeepsFields | app/quote/page.tsx:72-74 | editing one of the seven inputs keeps exactly the seven fields |
| QuotePage.QuoteUpload | app/quote/page.tsx:22-47 | the host's URL as it is on success; a rejection throws its message or "Cloudinary Upload Failed" |
| QuotePage.AttachmentIsNotOptimized | app/quote/page.tsx:42 | the page's own uploader stores a different URL than the shared one whenever "/upload/" occurs |
| QuotePage.AttachmentUrl | app/quote/page.tsx:83-88 | "" without a file, otherwise the upload's outcome |
| QuotePage.NoFileNoUpload | app/quote/page.tsx:83-98 | without a file, exactly one record is written, with an empty attachment URL, and nothing is uploaded |
| QuotePage.UploadPrecedesWrite | app/quote/page.tsx:83-98 | with a file the upload comes first; on failure nothing is written; on success exactly one record with the host's URL follows |
| QuotePage.QuoteForm.constructor | app/quote/page.tsx:52-65 | empty fields, no file, idle |
| QuotePage.QuoteForm.HandleChange | app/quote/page.tsx:72-74 | the form becomes ChangeField of the old form |
| QuotePage.QuoteForm.SelectFile | app/quote/page.tsx:217 | the chosen file, or none when the dialog is cancelled |
| QuotePage.QuoteForm.SendAnother | app/quote/page.tsx:174 | the success panel's button sets the status back to idle and changes nothing else |
| QuotePage.QuoteForm.HandleSubmit | app/quote/page.tsx:77-109 | the calls are exactly SubmitEvents; loading ends false; on success the status is success and form and file are cleared, otherwise the status is error and both are kept |
| ApplyPage.JobTitleFor | app/careers/apply/page.tsx:77 | the stored title if truthy, else the query's title if truthy, else "Unknown" |
| ApplyPage.JobTitleNeverEmpty | app/careers/apply/page.tsx:77 | the stored job title is never empty |
| ApplyPage.ErrorAlert | app/careers/apply/page.tsx:93 | the error's message, or "Something went wrong." when it is empty |
| ApplyPage.SubmitEventsShape | app/careers/apply/page.tsx:62-97 | without a resume only an alert; otherwise the upload comes first, a failed upload means no write, and a successful one is followed by one pending application with the optimized resume URL; the page navigates to the board exactly when the write succeeded |
| ApplyPage.ApplyForm.constructor | app/careers/apply/page.tsx:26-32 | the query's parameters are kept; no vacancy, no file, loading the vacancy |
| ApplyPage.ApplyForm.FetchJob | app/careers/apply/page.tsx:36-49 | without a job id nothing happens; otherwise one read is made, loading ends whatever the answer, and only a found document replaces the vacancy |
| ApplyPage.ApplyForm.HandleFileChange | app/careers/apply/page.tsx:54-59 | a chosen file replaces name and file; a cancelled dialog keeps both |
| ApplyPage.ApplyForm.HandleSubmit | app/careers/apply/page.tsx:62-97 | the calls are exactly SubmitEvents; isSubmitting ends false after any upload attempt and is untouched without a resume |
| ContactPage.ButtonLabel | app/contact-us/page.tsx:259-261 | the button's label for each status |
| ContactPage.ButtonLabelDeterminesStatus | app/contact-us/page.tsx:259-261 | two statuses have the same label exactly when they are equal |
| ContactPage.ContactForm.constructor | app/contact-us/page.tsx:30-37 | idle with empty fields |
| ContactPage.WithField | app/contact-us/page.tsx:210 | the spread copy with one field set: that field takes the value and the other three keep theirs (also lines 221, 231 and 242) |
| ContactPage.ContactForm.Edit | app/contact-us/page.tsx:210 | each input's onChange sets its own field and keeps the others, by WithField (also lines 221, 231 and 242) |
| ContactPage.ContactForm.HandleSubmit | app/contact-us/page.tsx:63-81 | one write of the fields with the source tag, then a five-second revert timer; success clears the fields, and an error keeps them |
| ContactPage.ContactForm.RevertTimerFires | app/contact-us/page.tsx:75 | a pending revert sets the status back to idle, whatever it is by then |
| TrustedBrands.QueryFor | app/trusted-technology-brands/page.tsx:80-84 | one "products" query per brand, by its name, limited to ten |
| TrustedBrands.ConfigIdsDistinct | app/trusted-technology-brands/page.tsx:26-43 | the configured brand ids are distinct |
| TrustedBrands.Collected | app/trusted-technology-brands/page.tsx:77-90 | every key of the results is a brand whose query answered |
| TrustedBrands.CollectedByBrand | app/trusted-technology-brands/page.tsx:76-91 | a brand has an entry exactly when its query answered, and it holds that answer, whatever the other queries did |
| TrustedBrands.CollectedWithinLimit | app/trusted-technology-brands/page.tsx:83 | when the answers respect the limit, no brand shows more than ten products |
| TrustedBrands.FetchBrandProducts | app/trusted-technology-brands/page.tsx:76-91 | one query per brand, in configuration order, and the results are Collected |
| TrustedBrands.BrandsShowcase.constructor | app/trusted-technology-brands/page.tsx:46 | no products and no queries yet |
| TrustedBrands.BrandsShowcase.LoadBrands | app/trusted-technology-brands/page.tsx:76-94 | the two brands are queried in order, and the page state is assigned the collected results once |
| AdminPanel.RenderContent | app/admin-panel/page.tsx:31-60 | a title outside the switch's cases falls to the product list |
| AdminPanel.OnNavigate | app/admin-panel/page.tsx:65 | the clicked title becomes the active view |
| AdminPanel.DefaultIsInitialView | app/admin-panel/page.tsx:29-60 | the default screen is the one of the initial view |
| AdminPanel.NamedCasesDistinct | app/admin-panel/page.tsx:31-60 | distinct cases show distinct screens, and only "All Product" shares its screen with the default |
| AdminPanel.SidebarItemsHaveCases | app/components/app-sidebar.tsx:29-52 | every sidebar item is one of the switch's cases |
| AdminPanel.SidebarItemFor | app/components/app-sidebar.tsx:29-52 | every screen is reached from the initial panel by clicking some sidebar item |

## Left out

- I/O is not modelled. Network traffic, the database and the media host are reduced to the reply values listed above. Listener registration, unsubscription and rendering are left out.
- Concurrency is not modelled. Interleavings of snapshots, clicks and pending awaits are left out, so the storage race between tabs is too. Each handler runs to completion.
- Promise.all rejects on the first failed upload while later uploads still run. The model records that every pending upload is started and that the save fails; the order in which the answers arrive is not modelled.
- Server timestamps (`createdAt`, `updatedAt`, `submittedAt`, `appliedAt`) are not values in the model. The records carry a `hasCreatedAt` flag where presence depends on the path, and the always-written ones are noted in comments.
- The database's own checks on values (for example, an undefined field rejected by `addDoc`) are not modelled. A write's outcome is the reply.
- `toLowerCase` is modelled as ASCII case folding. Characters whose Unicode lower-casing differs are not covered: the slug, search matching and the Kelvin sign differ for them.
- The text of the error `fetch` throws when the host cannot be reached differs between browsers. `Cloudinary.NetworkError` holds one browser's text ("Failed to fetch"); others use their own.
- Date formatting is a function parameter (`FormatFullDate`). The locale's output is not modelled.
- CareersManager.UpdateQualification requires an index inside the list. JavaScript would extend the array for an index at or past the end (a negative index only adds a non-index property and leaves the rows and length as they were), but the form only passes indexes of existing rows.
- A stored vacancy whose `qualifications` field is missing is not modelled. The edit button turns it into `[undefined]`, and a later `trim` throws.
- Stored fields that the editors read as strings (title, category, location, job type) are assumed to be strings.
- JSON values under the cart key other than a list are not modelled. For example, `null` makes `find` throw.
- BlogManager.SectionPatch covers the editable fields only. Patches that change a block's id or kind are not modelled, because the editor never sends them.
- The contact page's revert timers are a count of pending reverts. The clock itself is not modelled.
- The HTML `required` and `maxLength` attributes are not modelled. They stop a browser submit before the handler runs on three pages: the quote page, the contact page (`app/contact-us/page.tsx` lines 208, 219 and 240) and the application form (`app/careers/apply/page.tsx` lines 181, 188, 197 and 204). The last one includes the resume input, so a browser normally blocks the path where the handler alerts about a missing resume; the model keeps that path because the handler has it.
- The job-application and customer-inquiry inboxes have no error handler for their subscription, so after an error they stay loading. This follows the code and has no operation of its own.
- The admin dashboard, the public blog pages and the sidebar's rendering are outside this model. Only the sidebar's item titles are used.
- The vacancy board's category tabs are never rendered, and `activeCategory` never changes, so no operation changes the tab.
