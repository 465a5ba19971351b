/** app/careers/page.tsx: the public vacancy board. Its state is replaced wholesale by
    snapshots and clicks, so it is modelled as values and functions over them. */
module CareersPage {
  import opened Common

  /** A vacancy as the board reads it; `status` may be missing from a document. */
  datatype Job = Job(id: string, title: string, category: string, status: Option<string>)

  /** The tab that shows every vacancy. */
  const AllTab := "All"

  /** The board's state. */
  datatype Board = Board(jobs: seq<Job>, loading: bool, activeCategory: string, expandedJob: Option<string>)

  const InitialBoard := Board([], true, AllTab, None)

  /** A snapshot is filtered to the open vacancies, in snapshot order. */
  function OpenJobs(docs: seq<Job>): (r: seq<Job>)
    ensures IsSubseq(r, docs)
    ensures forall j :: j in r <==> j in docs && j.status == Some("Open")
    ensures forall j :: multiset(r)[j] == if j.status == Some("Open") then multiset(docs)[j] else 0
  {
    var keep := (j: Job) => j.status == Some("Open");
    FilterCount(docs, keep);
    Filter(docs, keep)
  }

  /** Every snapshot replaces the list with its open vacancies and ends loading. */
  function OnJobsSnapshot(b: Board, docs: seq<Job>): (r: Board)
    ensures r.jobs == OpenJobs(docs) && !r.loading
    ensures r.activeCategory == b.activeCategory && r.expandedJob == b.expandedJob
  {
    b.(jobs := OpenJobs(docs), loading := false)
  }

  /** A subscription error ends loading and keeps the list. */
  function OnSubscriptionError(b: Board): (r: Board)
    ensures !r.loading && r.jobs == b.jobs
    ensures r.activeCategory == b.activeCategory && r.expandedJob == b.expandedJob
  {
    b.(loading := false)
  }

  /** Only open vacancies are ever listed, whatever the snapshot held. */
  lemma ListedJobsAreOpen(b: Board, docs: seq<Job>)
    ensures forall j :: j in OnJobsSnapshot(b, docs).jobs ==> j.status == Some("Open")
  {
  }

  function CategoryList(jobs: seq<Job>): (r: seq<string>)
    ensures |r| == |jobs|
    ensures forall i :: 0 <= i < |jobs| ==> r[i] == jobs[i].category
  {
    seq(|jobs|, i requires 0 <= i < |jobs| => jobs[i].category)
  }

  /** `["All", ...new Set(jobs.map(job => job.category))]`. */
  function Categories(jobs: seq<Job>): (r: seq<string>)
    ensures |r| >= 1 && r[0] == AllTab
    ensures forall c :: c in r[1..] <==> c in CategoryList(jobs)
    ensures NoDuplicates(r[1..])
    ensures forall i, j {:trigger FirstIndex(CategoryList(jobs), r[i]), FirstIndex(CategoryList(jobs), r[j])} ::
      1 <= i < j < |r| ==> FirstIndex(CategoryList(jobs), r[i]) < FirstIndex(CategoryList(jobs), r[j])
  {
    var d := Distinct(CategoryList(jobs));
    assert ([AllTab] + d)[1..] == d;
    assert forall i :: 1 <= i < |d| + 1 ==> ([AllTab] + d)[i] == d[i - 1];
    [AllTab] + d
  }

  predicate HasCategory(jobs: seq<Job>, c: string) {
    exists i :: 0 <= i < |jobs| && jobs[i].category == c
  }

  /** The tabs cover every listed vacancy's category, and every tab after "All" is the
      category of some vacancy. */
  lemma CategoriesCoverJobs(jobs: seq<Job>)
    ensures forall j :: j in jobs ==> j.category in Categories(jobs)
    ensures forall k :: 1 <= k < |Categories(jobs)| ==> HasCategory(jobs, Categories(jobs)[k])
  {
    var cl := CategoryList(jobs);
    var cs := Categories(jobs);
    forall j | j in jobs ensures j.category in cs {
      var i :| 0 <= i < |jobs| && jobs[i] == j;
      assert cl[i] in cl;
    }
    forall k | 1 <= k < |cs| ensures HasCategory(jobs, cs[k]) {
      assert cs[k] in Distinct(cl);
      var i :| 0 <= i < |cl| && cl[i] == cs[k];
    }
  }

  /** Each tab appears once exactly when no vacancy is itself categorised "All". */
  lemma CategoriesDistinctIff(jobs: seq<Job>)
    ensures NoDuplicates(Categories(jobs)) <==> !HasCategory(jobs, AllTab)
  {
    if HasCategory(jobs, AllTab) {
      AllTabRepeats(jobs);
    } else {
      TabsDistinct(jobs);
    }
  }

  lemma AllTabRepeats(jobs: seq<Job>)
    requires HasCategory(jobs, AllTab)
    ensures !NoDuplicates(Categories(jobs))
  {
    var cl := CategoryList(jobs);
    var d := Distinct(cl);
    var cs := Categories(jobs);
    var i :| 0 <= i < |jobs| && jobs[i].category == AllTab;
    assert cl[i] in cl;
    assert AllTab in d;
    var k :| 0 <= k < |d| && d[k] == AllTab;
    assert cs[0] == cs[k + 1];
  }

  lemma TabsDistinct(jobs: seq<Job>)
    requires !HasCategory(jobs, AllTab)
    ensures NoDuplicates(Categories(jobs))
  {
    var cl := CategoryList(jobs);
    var d := Distinct(cl);
    var cs := Categories(jobs);
    assert AllTab !in cl;
    forall i, j | 0 <= i < j < |cs| ensures cs[i] != cs[j] {
      assert cs[j] == d[j - 1];
      if i > 0 {
        assert cs[i] == d[i - 1];
      }
    }
  }

  /** `activeCategory === "All" || job.category === activeCategory`. */
  function JobsInTab(jobs: seq<Job>, tab: string): (r: seq<Job>)
    ensures IsSubseq(r, jobs)
    ensures forall j :: j in r <==> j in jobs && (tab == AllTab || j.category == tab)
    ensures forall j :: multiset(r)[j] == if tab == AllTab || j.category == tab then multiset(jobs)[j] else 0
  {
    var keep := (j: Job) => tab == AllTab || j.category == tab;
    FilterCount(jobs, keep);
    Filter(jobs, keep)
  }

  /** Under "All" the whole list is shown. */
  lemma AllTabShowsEveryJob(jobs: seq<Job>)
    ensures JobsInTab(jobs, AllTab) == jobs
  {
    FilterAll(jobs, (j: Job) => AllTab == AllTab || j.category == AllTab);
  }

  /** For a non-empty list of open vacancies, every tab the board offers shows at least one
      vacancy. An empty board still offers "All", and it shows none. */
  lemma OfferedTabsAreNonEmpty(jobs: seq<Job>, k: nat)
    requires k < |Categories(jobs)|
    requires jobs != []
    ensures JobsInTab(jobs, Categories(jobs)[k]) != []
  {
    var tab := Categories(jobs)[k];
    var i: int;
    if k == 0 {
      i := 0;
    } else {
      CategoriesCoverJobs(jobs);
      i :| 0 <= i < |jobs| && jobs[i].category == tab;
    }
    assert jobs[i] in jobs;
    assert jobs[i] in JobsInTab(jobs, tab);
  }

  /** Clicking a card: it closes if it was the expanded one, otherwise it becomes the
      only expanded card. */
  function ToggleExpanded(expanded: Option<string>, id: string): (r: Option<string>)
    ensures r == Some(id) <==> expanded != Some(id)
    ensures r.None? <==> expanded == Some(id)
  {
    if expanded == Some(id) then None else Some(id)
  }

  /** A second click on the same card restores the state before the first, when no other
      card was open. */
  lemma ToggleTwice(expanded: Option<string>, id: string)
    requires expanded.None? || expanded == Some(id)
    ensures ToggleExpanded(ToggleExpanded(expanded, id), id) == expanded
  {
  }

  function ClickCard(b: Board, id: string): (r: Board)
    ensures r.expandedJob == ToggleExpanded(b.expandedJob, id)
    ensures r.jobs == b.jobs && r.loading == b.loading && r.activeCategory == b.activeCategory
  {
    b.(expandedJob := ToggleExpanded(b.expandedJob, id))
  }

  /** What the grid shows: placeholders while loading, then the active tab's jobs. */
  function Shown(b: Board): (r: seq<Job>)
    ensures b.loading ==> r == []
    ensures !b.loading ==> r == JobsInTab(b.jobs, b.activeCategory)
  {
    if b.loading then [] else JobsInTab(b.jobs, b.activeCategory)
  }
}
