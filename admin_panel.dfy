/** app/admin-panel/page.tsx: the admin shell. The sidebar reports the title of the
    item clicked, which becomes `activeView`; a switch on it picks the screen. */
module AdminPanel {

  /** The screens the panel can show. */
  datatype View =
    | AllProducts | ProductInquiries | ApplicationInquiries | AddNewProduct
    | QuotationInbox | CareersEditor | CustomerInquiriesInbox | BlogEditor

  /** The view shown before any navigation. */
  const InitialView := "All Product"

  /** The titles the switch names, in the order of its cases. */
  const NamedCases: seq<string> :=
    ["All Product", "Orders", "Job Application", "Add new product",
     "Quotation", "Careers", "Customer Inquiries", "All Blogs"]

  /** The sub-item titles of the sidebar's navigation groups, in sidebar order
      (app/components/app-sidebar.tsx). */
  const SidebarItems: seq<string> :=
    ["All Product", "Add new product", "Orders",
     "All Blogs", "Careers",
     "Customer Inquiries", "Quotation", "Job Application"]

  /** renderContent: each named case has its screen; any other title falls to the
      default, the product list. */
  function RenderContent(activeView: string): (v: View)
    ensures activeView !in NamedCases ==> v == AllProducts
  {
    if activeView == "All Product" then AllProducts
    else if activeView == "Orders" then ProductInquiries
    else if activeView == "Job Application" then ApplicationInquiries
    else if activeView == "Add new product" then AddNewProduct
    else if activeView == "Quotation" then QuotationInbox
    else if activeView == "Careers" then CareersEditor
    else if activeView == "Customer Inquiries" then CustomerInquiriesInbox
    else if activeView == "All Blogs" then BlogEditor
    else AllProducts
  }

  /** The panel's state: only the active title. */
  datatype Panel = Panel(activeView: string)

  const InitialPanel := Panel(InitialView)

  /** onNavigate: the title is stored as it is. */
  function OnNavigate(p: Panel, title: string): (r: Panel)
    ensures r.activeView == title
  {
    Panel(title)
  }

  /** The default screen is the one of the initial view. */
  lemma DefaultIsInitialView(title: string)
    requires title !in NamedCases
    ensures RenderContent(title) == RenderContent(InitialPanel.activeView)
  {
  }

  /** Distinct named cases show distinct screens, and only "All Product" shares its
      screen with the default. */
  lemma NamedCasesDistinct()
    ensures forall i, j :: 0 <= i < j < |NamedCases| ==> RenderContent(NamedCases[i]) != RenderContent(NamedCases[j])
    ensures forall i :: 1 <= i < |NamedCases| ==> RenderContent(NamedCases[i]) != AllProducts
  {
  }

  /** Every sidebar item has its own case, so navigation never reaches the default. */
  lemma SidebarItemsHaveCases()
    ensures forall t :: t in SidebarItems ==> t in NamedCases
  {
  }

  /** Every screen can be reached from the sidebar: the item that leads to it. */
  function SidebarItemFor(v: View): (t: string)
    ensures t in SidebarItems
    ensures RenderContent(OnNavigate(InitialPanel, t).activeView) == v
  {
    match v
    case AllProducts => "All Product"
    case ProductInquiries => "Orders"
    case ApplicationInquiries => "Job Application"
    case AddNewProduct => "Add new product"
    case QuotationInbox => "Quotation"
    case CareersEditor => "Careers"
    case CustomerInquiriesInbox => "Customer Inquiries"
    case BlogEditor => "All Blogs"
  }
}
