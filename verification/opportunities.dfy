/** The job board of `app/dashboard/opportunities/page.tsx`: its page state and every
    handler as a pure transition. Toasts and rendering are not modelled. */
module Opportunities {
  import opened Common
  import opened Types
  import opened Text
  import opened Seqs
  import Fixtures

  /** A résumé file picked in the apply dialog, identified by its name. */
  datatype FileRef = FileRef(name: string)

  datatype PageState = PageState(
    searchQuery: string,
    jobTypeFilter: string,
    locationFilter: string,
    availableJobs: seq<Job>,
    savedJobs: seq<Job>,
    appliedJobs: seq<Job>,
    isLoading: bool,
    selectedJob: Option<Job>,
    showApplyDialog: bool,
    applicationNote: string,
    resumeFile: Option<FileRef>)

  /** The state on mount: every job listed, nothing saved or applied for, loading. */
  const Initial := PageState("", "", "", Fixtures.Jobs, [], [], true, None, false, "", None)

  /* ---------------- search ---------------- */

  /** The search condition: title, company, description or some skill contains the query,
      ignoring case. */
  predicate JobMatches(job: Job, query: string)
  {
    || ContainsIgnoringCase(job.title, query)
    || ContainsIgnoringCase(job.company, query)
    || ContainsIgnoringCase(job.description, query)
    || Any(job.skills, (skill: string) => ContainsIgnoringCase(skill, query))
  }

  function Matches(query: string): Job -> bool
  {
    (j: Job) => JobMatches(j, query)
  }

  /** The jobs a search for `query` lists: all of them for the empty query, otherwise exactly
      the matching ones in catalogue order. */
  function SearchJobs(all: seq<Job>, query: string): (r: seq<Job>)
    ensures query == "" ==> r == all
    ensures query != "" ==> SelectsExactly(r, all, Matches(query))
    ensures IsSublist(r, all)
  {
    if query != "" then
      FilterSelectsExactly(all, Matches(query));
      Filter(all, Matches(query))
    else
      SublistOfSelf(all);
      all
  }

  /** Submitting the search form: always searches the full catalogue, whatever is listed. */
  function HandleSearch(st: PageState): (r: PageState)
    ensures r == st.(availableJobs := r.availableJobs)
    ensures st.searchQuery == "" ==> r.availableJobs == Fixtures.Jobs
    ensures st.searchQuery != "" ==>
      SelectsExactly(r.availableJobs, Fixtures.Jobs, Matches(st.searchQuery))
    ensures IsSublist(r.availableJobs, Fixtures.Jobs)
  {
    st.(availableJobs := SearchJobs(Fixtures.Jobs, st.searchQuery))
  }

  /* ---------------- type and location filters ---------------- */

  /** A select value that restricts the list: neither unset nor "all". */
  predicate Restricts(filter: string)
  {
    filter != "" && filter != "all"
  }

  /** A job passes the filters when each restricting filter names its type or mode. */
  predicate PassesFilters(job: Job, typeFilter: string, locationFilter: string)
  {
    && (Restricts(typeFilter) ==> JobTypeName(job.jobType) == typeFilter)
    && (Restricts(locationFilter) ==> WorkModeName(job.mode) == locationFilter)
  }

  /** The filter conditions as predicates over jobs. */
  function TypeIs(typeFilter: string): Job -> bool
  {
    (j: Job) => JobTypeName(j.jobType) == typeFilter
  }

  function ModeIs(locationFilter: string): Job -> bool
  {
    (j: Job) => WorkModeName(j.mode) == locationFilter
  }

  function Passes(typeFilter: string, locationFilter: string): Job -> bool
  {
    (j: Job) => PassesFilters(j, typeFilter, locationFilter)
  }

  /** The type filter followed by the location filter, as two successive `filter` calls. */
  function FilterJobs(all: seq<Job>, typeFilter: string, locationFilter: string): (r: seq<Job>)
    ensures SelectsExactly(r, all, Passes(typeFilter, locationFilter))
    ensures IsSublist(r, all)
  {
    var first := if Restricts(typeFilter) then Filter(all, TypeIs(typeFilter)) else all;
    var r := if Restricts(locationFilter) then Filter(first, ModeIs(locationFilter)) else first;
    FilterJobsIsFilter(all, typeFilter, locationFilter);
    FilterSelectsExactly(all, Passes(typeFilter, locationFilter));
    r
  }

  /** The two successive filters are one filter on the combined condition. */
  lemma FilterJobsIsFilter(all: seq<Job>, typeFilter: string, locationFilter: string)
    ensures (var first := if Restricts(typeFilter) then Filter(all, TypeIs(typeFilter)) else all;
             if Restricts(locationFilter) then Filter(first, ModeIs(locationFilter)) else first)
      == Filter(all, Passes(typeFilter, locationFilter))
  {
    var byType, byMode, both := TypeIs(typeFilter), ModeIs(locationFilter), Passes(typeFilter, locationFilter);
    if Restricts(typeFilter) && Restricts(locationFilter) {
      FilterFilter(all, byType, byMode);
      FilterAgree(all, And(byType, byMode), both);
    } else if Restricts(typeFilter) {
      FilterAgree(all, byType, both);
    } else if Restricts(locationFilter) {
      FilterAgree(all, byMode, both);
    } else {
      FilterKeepsAll(all, both);
    }
  }

  /** `applyFilters`: lists the filtered catalogue, discarding any earlier search result. */
  function ApplyFilters(st: PageState): (r: PageState)
    ensures r == st.(availableJobs := r.availableJobs)
    ensures SelectsExactly(r.availableJobs, Fixtures.Jobs, Passes(st.jobTypeFilter, st.locationFilter))
  {
    st.(availableJobs := FilterJobs(Fixtures.Jobs, st.jobTypeFilter, st.locationFilter))
  }

  /** `resetFilters`: clears both filters and the query and lists every job. */
  function ResetFilters(st: PageState): (r: PageState)
    ensures r.jobTypeFilter == "" && r.locationFilter == "" && r.searchQuery == ""
    ensures r.availableJobs == Fixtures.Jobs
    ensures r == st.(jobTypeFilter := r.jobTypeFilter, locationFilter := r.locationFilter,
                     searchQuery := r.searchQuery, availableJobs := r.availableJobs)
  {
    st.(jobTypeFilter := "", locationFilter := "", searchQuery := "", availableJobs := Fixtures.Jobs)
  }

  /** The filter button: applies the filters when either is set, otherwise resets. */
  function FilterButton(st: PageState): (r: PageState)
    ensures st.jobTypeFilter == "" && st.locationFilter == "" ==> r == ResetFilters(st)
    ensures st.jobTypeFilter != "" || st.locationFilter != "" ==> r == ApplyFilters(st)
  {
    if st.jobTypeFilter != "" || st.locationFilter != "" then ApplyFilters(st) else ResetFilters(st)
  }

  /** Filtering only ever looks at the two filters: the query and the listed jobs before
      the click play no part. */
  lemma ApplyFiltersIgnoresSearch(st: PageState, query: string, listed: seq<Job>)
    ensures ApplyFilters(st.(searchQuery := query, availableJobs := listed)).availableJobs
      == ApplyFilters(st).availableJobs
  {
  }

  /** "all" in both selects lists every job, but keeps the query, unlike the reset. */
  lemma AllWildcardsListEverything(st: PageState)
    requires st.jobTypeFilter == "all" && st.locationFilter == "all"
    ensures FilterButton(st).availableJobs == Fixtures.Jobs
    ensures FilterButton(st).searchQuery == st.searchQuery
  {
    assert !Restricts("all");
  }

  /* ---------------- saving and applying ---------------- */

  /** `handleSaveJob`: unsaves every entry with the job's id if there is one, otherwise
      appends the job. */
  function HandleSaveJob(st: PageState, job: Job): (r: PageState)
    ensures r == st.(savedJobs := r.savedJobs)
    ensures HasKey(r.savedJobs, job.id, JobId) <==> !HasKey(st.savedJobs, job.id, JobId)
    ensures HasKey(st.savedJobs, job.id, JobId) ==>
      SelectsExactly(r.savedJobs, st.savedJobs, KeyIsNot(JobId, job.id))
    ensures !HasKey(st.savedJobs, job.id, JobId) ==> r.savedJobs == st.savedJobs + [job]
    ensures UniqueBy(st.savedJobs, JobId) ==> UniqueBy(r.savedJobs, JobId)
  {
    st.(savedJobs := Toggle(st.savedJobs, job, JobId))
  }

  /** Saving a job that was not saved, then clicking again, restores the saved list. */
  lemma SaveTwiceRestores(st: PageState, job: Job)
    requires !HasKey(st.savedJobs, job.id, JobId)
    ensures HandleSaveJob(HandleSaveJob(st, job), job) == st
  {
    ToggleTwiceRestores(st.savedJobs, job, JobId);
  }

  /** `handleApply`: selects the job and opens the dialog. */
  function HandleApply(st: PageState, job: Job): (r: PageState)
    ensures r.selectedJob == Some(job) && r.showApplyDialog
    ensures r == st.(selectedJob := Some(job), showApplyDialog := true)
  {
    st.(selectedJob := Some(job), showApplyDialog := true)
  }

  /** `handleSubmitApplication`: without a selected job nothing happens; otherwise the job
      joins the applied list unless its id is already there, and the dialog closes with its
      note and file cleared. The selection itself is kept. */
  function HandleSubmitApplication(st: PageState): (r: PageState)
    ensures st.selectedJob.None? ==> r == st
    ensures st.selectedJob.Some? ==>
      && HasKey(r.appliedJobs, st.selectedJob.value.id, JobId)
      && r.appliedJobs == AppendIfAbsent(st.appliedJobs, st.selectedJob.value, JobId)
      && r == st.(appliedJobs := r.appliedJobs, showApplyDialog := false,
                  applicationNote := "", resumeFile := None)
    ensures UniqueBy(st.appliedJobs, JobId) ==> UniqueBy(r.appliedJobs, JobId)
  {
    if st.selectedJob.None? then st
    else
      st.(appliedJobs := AppendIfAbsent(st.appliedJobs, st.selectedJob.value, JobId),
          showApplyDialog := false, applicationNote := "", resumeFile := None)
  }

  /** Submitting the same application twice has the effect of submitting it once. */
  lemma SubmitApplicationIdempotent(st: PageState)
    ensures HandleSubmitApplication(HandleSubmitApplication(st)) == HandleSubmitApplication(st)
  {
    if st.selectedJob.Some? {
      AppendIfAbsentIdempotent(st.appliedJobs, st.selectedJob.value, JobId);
    }
  }

  /** `handleFileChange`: the first picked file, if any, becomes the résumé. */
  function HandleFileChange(st: PageState, picked: seq<FileRef>): (r: PageState)
    ensures |picked| == 0 ==> r == st
    ensures |picked| > 0 ==> r == st.(resumeFile := Some(picked[0]))
  {
    if |picked| > 0 then st.(resumeFile := Some(picked[0])) else st
  }

  /** The mount effect after its delay: lists the catalogue (left as is when the fetch
      faults) and leaves the loading state either way. */
  function FetchJobs(st: PageState, delay: Delay): (r: PageState)
    ensures !r.isLoading
    ensures delay == Elapsed ==> r.availableJobs == Fixtures.Jobs
    ensures delay == Faulted ==> r.availableJobs == st.availableJobs
    ensures r == st.(availableJobs := r.availableJobs, isLoading := false)
  {
    if delay == Elapsed then st.(availableJobs := Fixtures.Jobs, isLoading := false)
    else st.(isLoading := false)
  }

  /* ---------------- the page as an event loop ---------------- */

  /** Everything the user (or the mount effect) can do on the page. */
  datatype Event =
    | TypeQuery(query: string)
    | PickJobType(value: string)
    | PickLocation(value: string)
    | SubmitSearch
    | ClickFilter
    | SaveJob(job: Job)
    | Apply(job: Job)
    | TypeNote(note: string)
    | PickFile(files: seq<FileRef>)
    | SubmitApplication
    | SetDialogOpen(open: bool)  // the dialog's Cancel button and its `onOpenChange`
    | Fetched(delay: Delay)

  function Handle(st: PageState, e: Event): PageState
  {
    match e
    case TypeQuery(q) => st.(searchQuery := q)
    case PickJobType(v) => st.(jobTypeFilter := v)
    case PickLocation(v) => st.(locationFilter := v)
    case SubmitSearch => HandleSearch(st)
    case ClickFilter => FilterButton(st)
    case SaveJob(job) => HandleSaveJob(st, job)
    case Apply(job) => HandleApply(st, job)
    case TypeNote(n) => st.(applicationNote := n)
    case PickFile(files) => HandleFileChange(st, files)
    case SubmitApplication => HandleSubmitApplication(st)
    case SetDialogOpen(b) => st.(showApplyDialog := b)
    case Fetched(d) => FetchJobs(st, d)
  }

  function Run(st: PageState, events: seq<Event>): PageState
    decreases |events|
  {
    if |events| == 0 then st else Run(Handle(st, events[0]), events[1..])
  }

  /** What holds of the page at all times: it lists an order-preserving sublist of the
      catalogue, and neither the saved nor the applied list repeats an id. */
  ghost predicate Valid(st: PageState)
  {
    && IsSublist(st.availableJobs, Fixtures.Jobs)
    && UniqueBy(st.savedJobs, JobId)
    && UniqueBy(st.appliedJobs, JobId)
  }

  /** Typing, picking a select value, opening or closing the dialog or picking a file leaves
      the three lists alone. */
  lemma InputKeepsValid(st: PageState, e: Event)
    requires Valid(st)
    requires e.TypeQuery? || e.PickJobType? || e.PickLocation? || e.Apply? || e.TypeNote? || e.PickFile?
      || e.SetDialogOpen?
    ensures Valid(Handle(st, e))
  {
    var r := Handle(st, e);
    assert r.availableJobs == st.availableJobs;
    assert r.savedJobs == st.savedJobs && r.appliedJobs == st.appliedJobs;
  }

  /** Searching relists a selection of the catalogue. */
  lemma SearchKeepsValid(st: PageState)
    requires Valid(st)
    ensures Valid(Handle(st, SubmitSearch))
  {
    var r := HandleSearch(st);
    assert IsSublist(r.availableJobs, Fixtures.Jobs);
    assert r.savedJobs == st.savedJobs && r.appliedJobs == st.appliedJobs;
  }

  /** The filter button relists a selection of the catalogue. */
  lemma FilterButtonKeepsValid(st: PageState)
    requires Valid(st)
    ensures Valid(Handle(st, ClickFilter))
  {
    var r := FilterButton(st);
    if st.jobTypeFilter == "" && st.locationFilter == "" {
      SublistOfSelf(Fixtures.Jobs);
    } else {
      SelectsExactlyIsSublist(r.availableJobs, Fixtures.Jobs, Passes(st.jobTypeFilter, st.locationFilter));
    }
  }

  /** The mount fetch relists the catalogue or keeps the list. */
  lemma FetchKeepsValid(st: PageState, d: Delay)
    requires Valid(st)
    ensures Valid(Handle(st, Fetched(d)))
  {
    SublistOfSelf(Fixtures.Jobs);
  }

  /** Every handler keeps the page valid. */
  lemma HandleKeepsValid(st: PageState, e: Event)
    requires Valid(st)
    ensures Valid(Handle(st, e))
  {
    match e
    case SubmitSearch => SearchKeepsValid(st);
    case ClickFilter => FilterButtonKeepsValid(st);
    case SaveJob(job) =>
    case SubmitApplication =>
    case Fetched(d) => FetchKeepsValid(st, d);
    case _ => InputKeepsValid(st, e);
  }

  /** Any sequence of events from the initial page keeps it valid. */
  lemma {:induction false} RunKeepsValid(st: PageState, events: seq<Event>)
    requires Valid(st)
    ensures Valid(Run(st, events))
    decreases |events|
  {
    if |events| > 0 {
      HandleKeepsValid(st, events[0]);
      RunKeepsValid(Handle(st, events[0]), events[1..]);
    }
  }

  /** The initial page is valid, so every reachable page is. */
  lemma ReachableIsValid(events: seq<Event>)
    ensures Valid(Run(Initial, events))
  {
    SublistOfSelf(Fixtures.Jobs);
    RunKeepsValid(Initial, events);
  }
}
