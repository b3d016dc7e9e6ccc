/** The mentor finder of `app/dashboard/mentorship/page.tsx`: its page state and handlers
    as pure transitions. Toasts and rendering are not modelled. */
module Mentorship {
  import opened Common
  import opened Types
  import opened Text
  import opened Seqs
  import Fixtures

  datatype PageState = PageState(
    searchQuery: string,
    industryFilter: string,
    availableMentors: seq<Mentor>,
    myMentors: seq<Mentor>,
    isLoading: bool,
    selectedMentor: Option<Mentor>,
    showConnectDialog: bool,
    connectMessage: string)

  /** The state on mount: every mentor listed, the fixture connections, loading. */
  const Initial := PageState("", "", Fixtures.Mentors, Fixtures.UserMentors, true, None, false, "")

  /* ---------------- search ---------------- */

  /** The search condition: name, some skill, bio, title or company contains the query,
      ignoring case. */
  predicate MentorMatches(m: Mentor, query: string)
  {
    || ContainsIgnoringCase(m.name, query)
    || Any(m.skills, (skill: string) => ContainsIgnoringCase(skill, query))
    || ContainsIgnoringCase(m.bio, query)
    || ContainsIgnoringCase(m.title, query)
    || ContainsIgnoringCase(m.company, query)
  }

  function Matches(query: string): Mentor -> bool
  {
    (m: Mentor) => MentorMatches(m, query)
  }

  /** Submitting the search form: the full catalogue for the empty query, otherwise exactly
      the matching mentors in catalogue order, whatever was listed before. */
  function HandleSearch(st: PageState): (r: PageState)
    ensures r == st.(availableMentors := r.availableMentors)
    ensures st.searchQuery == "" ==> r.availableMentors == Fixtures.Mentors
    ensures st.searchQuery != "" ==>
      SelectsExactly(r.availableMentors, Fixtures.Mentors, Matches(st.searchQuery))
    ensures IsSublist(r.availableMentors, Fixtures.Mentors)
  {
    if st.searchQuery != "" then
      FilterSelectsExactly(Fixtures.Mentors, Matches(st.searchQuery));
      st.(availableMentors := Filter(Fixtures.Mentors, Matches(st.searchQuery)))
    else
      SublistOfSelf(Fixtures.Mentors);
      st.(availableMentors := Fixtures.Mentors)
  }

  /* ---------------- industry filter ---------------- */

  function IndustryIs(value: string): Mentor -> bool
  {
    (m: Mentor) => m.industry == value
  }

  /** `handleIndustryFilter` as written: any non-empty value, "all" included, keeps exactly
      the mentors whose industry equals it; the empty value lists everyone. */
  function HandleIndustryFilterAsWritten(st: PageState, value: string): (r: PageState)
    ensures r == st.(industryFilter := value, availableMentors := r.availableMentors)
    ensures value == "" ==> r.availableMentors == Fixtures.Mentors
    ensures value != "" ==> SelectsExactly(r.availableMentors, Fixtures.Mentors, IndustryIs(value))
    ensures IsSublist(r.availableMentors, Fixtures.Mentors)
  {
    if value != "" then
      FilterSelectsExactly(Fixtures.Mentors, IndustryIs(value));
      st.(industryFilter := value, availableMentors := Filter(Fixtures.Mentors, IndustryIs(value)))
    else
      SublistOfSelf(Fixtures.Mentors);
      st.(industryFilter := value, availableMentors := Fixtures.Mentors)
  }

  /** Picking "All Industries" (value "all") as written lists no mentor at all, because no
      mentor's industry is "all". */
  lemma AllIndustriesListsNobody(st: PageState)
    ensures HandleIndustryFilterAsWritten(st, "all").availableMentors == []
    ensures |Fixtures.Mentors| > 0
  {
    var m := Fixtures.Mentors;
    Fixtures.MentorIndustries();
    assert forall i :: 0 <= i < |m| ==> !IndustryIs("all")(m[i]);
    FilterKeepsNone(m, IndustryIs("all"));
  }

  /** The industry filter as the select's "All Industries" entry intends it: "all", like the
      empty value, lists every mentor; any other value keeps exactly that industry. */
  function HandleIndustryFilter(st: PageState, value: string): (r: PageState)
    ensures r == st.(industryFilter := value, availableMentors := r.availableMentors)
    ensures value == "" || value == "all" ==> r.availableMentors == Fixtures.Mentors
    ensures value != "" && value != "all" ==>
      SelectsExactly(r.availableMentors, Fixtures.Mentors, IndustryIs(value))
    ensures IsSublist(r.availableMentors, Fixtures.Mentors)
  {
    if value != "" && value != "all" then
      FilterSelectsExactly(Fixtures.Mentors, IndustryIs(value));
      st.(industryFilter := value, availableMentors := Filter(Fixtures.Mentors, IndustryIs(value)))
    else
      SublistOfSelf(Fixtures.Mentors);
      st.(industryFilter := value, availableMentors := Fixtures.Mentors)
  }

  /** The corrected filter and the handler as written give the same page exactly when the
      value is not "all"; on "all" the correction lists every mentor and the code nobody. */
  lemma IndustryFilterFixOnlyTouchesAll(st: PageState, value: string)
    ensures HandleIndustryFilter(st, value) == HandleIndustryFilterAsWritten(st, value) <==> value != "all"
    ensures value == "all" ==>
      && HandleIndustryFilter(st, value).availableMentors == Fixtures.Mentors
      && HandleIndustryFilterAsWritten(st, value).availableMentors == []
  {
    if value == "all" {
      AllIndustriesListsNobody(st);
    }
  }

  /** A step of `TechMentors`: filtering six mentors of which exactly the first, second and
      fourth pass. */
  lemma FilterSixKeepsFirstSecondFourth(m: seq<Mentor>, p: Mentor -> bool)
    requires |m| == 6
    requires p(m[0]) && p(m[1]) && !p(m[2]) && p(m[3]) && !p(m[4]) && !p(m[5])
    ensures Filter(m, p) == [m[0], m[1], m[3]]
  {
    assert m[5..][1..] == [];
    assert Filter(m[5..], p) == [];
    assert m[4..][1..] == m[5..];
    assert Filter(m[4..], p) == [];
    assert m[3..][1..] == m[4..];
    assert Filter(m[3..], p) == [m[3]];
    assert m[2..][1..] == m[3..];
    assert Filter(m[2..], p) == [m[3]];
    assert m[1..][1..] == m[2..];
    assert Filter(m[1..], p) == [m[1], m[3]];
  }

  /** Picking "tech" lists Sarah Miller, James Wilson and Michael Chen, in that order. */
  lemma TechMentors(st: PageState)
    ensures HandleIndustryFilter(st, "tech").availableMentors
      == [Fixtures.Mentors[0], Fixtures.Mentors[1], Fixtures.Mentors[3]]
  {
    var m := Fixtures.Mentors;
    Fixtures.MentorIndustries();
    FilterSixKeepsFirstSecondFourth(m, IndustryIs("tech"));
  }

  /** The filter button: clears the query and the industry and lists every mentor. */
  function ResetButton(st: PageState): (r: PageState)
    ensures r.searchQuery == "" && r.industryFilter == "" && r.availableMentors == Fixtures.Mentors
    ensures r == st.(searchQuery := r.searchQuery, industryFilter := r.industryFilter,
                     availableMentors := r.availableMentors)
  {
    st.(searchQuery := "", industryFilter := "", availableMentors := Fixtures.Mentors)
  }

  /* ---------------- connecting ---------------- */

  /** `handleConnect`: selects the mentor and opens the dialog. */
  function HandleConnect(st: PageState, m: Mentor): (r: PageState)
    ensures r.selectedMentor == Some(m) && r.showConnectDialog
    ensures r == st.(selectedMentor := Some(m), showConnectDialog := true)
  {
    st.(selectedMentor := Some(m), showConnectDialog := true)
  }

  /** `handleSubmitConnect`: without a selected mentor nothing happens; otherwise the mentor
      joins "my mentors" unless its id is already there, and the dialog closes with its
      message cleared. */
  function HandleSubmitConnect(st: PageState): (r: PageState)
    ensures st.selectedMentor.None? ==> r == st
    ensures st.selectedMentor.Some? ==>
      && HasKey(r.myMentors, st.selectedMentor.value.id, MentorId)
      && r.myMentors == AppendIfAbsent(st.myMentors, st.selectedMentor.value, MentorId)
      && r == st.(myMentors := r.myMentors, showConnectDialog := false, connectMessage := "")
    ensures UniqueBy(st.myMentors, MentorId) ==> UniqueBy(r.myMentors, MentorId)
  {
    if st.selectedMentor.None? then st
    else
      st.(myMentors := AppendIfAbsent(st.myMentors, st.selectedMentor.value, MentorId),
          showConnectDialog := false, connectMessage := "")
  }

  /** Sending the same connection request twice has the effect of sending it once. */
  lemma SubmitConnectIdempotent(st: PageState)
    ensures HandleSubmitConnect(HandleSubmitConnect(st)) == HandleSubmitConnect(st)
  {
    if st.selectedMentor.Some? {
      AppendIfAbsentIdempotent(st.myMentors, st.selectedMentor.value, MentorId);
    }
  }

  /** The mount effect after its delay: lists every mentor and reloads the connections from
      the fixture (dropping any made meanwhile); leaves the loading state either way. */
  function FetchMentors(st: PageState, delay: Delay): (r: PageState)
    ensures !r.isLoading
    ensures r == st.(availableMentors := r.availableMentors, myMentors := r.myMentors, isLoading := false)
    ensures delay == Elapsed ==>
      r.availableMentors == Fixtures.Mentors && r.myMentors == Fixtures.UserMentors
    ensures delay == Faulted ==> r == st.(isLoading := false)
  {
    if delay == Elapsed then
      st.(availableMentors := Fixtures.Mentors, myMentors := Fixtures.UserMentors, isLoading := false)
    else
      st.(isLoading := false)
  }

  /* ---------------- the page as an event loop ---------------- */

  /** Which industry filter the page runs: the handler as written, or the corrected one. */
  datatype Build = AsWritten | Corrected

  function IndustryFilter(b: Build, st: PageState, value: string): PageState
  {
    match b
    case AsWritten => HandleIndustryFilterAsWritten(st, value)
    case Corrected => HandleIndustryFilter(st, value)
  }

  /** Everything the user (or the mount effect) can do on the page. */
  datatype Event =
    | TypeQuery(query: string)
    | SubmitSearch
    | PickIndustry(value: string)
    | ClickReset
    | Connect(mentor: Mentor)
    | TypeMessage(message: string)
    | SubmitConnect
    | SetDialogOpen(open: bool)  // the dialog's Cancel button and its `onOpenChange`
    | Fetched(delay: Delay)

  function Handle(b: Build, st: PageState, e: Event): PageState
  {
    match e
    case TypeQuery(q) => st.(searchQuery := q)
    case SubmitSearch => HandleSearch(st)
    case PickIndustry(v) => IndustryFilter(b, st, v)
    case ClickReset => ResetButton(st)
    case Connect(m) => HandleConnect(st, m)
    case TypeMessage(msg) => st.(connectMessage := msg)
    case SubmitConnect => HandleSubmitConnect(st)
    case SetDialogOpen(open) => st.(showConnectDialog := open)
    case Fetched(d) => FetchMentors(st, d)
  }

  function Run(b: Build, st: PageState, events: seq<Event>): PageState
    decreases |events|
  {
    if |events| == 0 then st else Run(b, Handle(b, st, events[0]), events[1..])
  }

  /** What holds of the page at all times: it lists an order-preserving sublist of the
      catalogue and "my mentors" never repeats an id. */
  ghost predicate Valid(st: PageState)
  {
    && IsSublist(st.availableMentors, Fixtures.Mentors)
    && UniqueBy(st.myMentors, MentorId)
  }

  /** Typing and opening or closing the dialog leave both lists alone. */
  lemma InputKeepsValid(b: Build, st: PageState, e: Event)
    requires Valid(st)
    requires e.TypeQuery? || e.Connect? || e.TypeMessage? || e.SetDialogOpen?
    ensures Valid(Handle(b, st, e))
  {
    var r := Handle(b, st, e);
    assert r.availableMentors == st.availableMentors && r.myMentors == st.myMentors;
  }

  /** Searching, filtering by industry (as written or corrected) and the reset button relist
      a selection of the catalogue and keep the connections. */
  lemma RelistKeepsValid(b: Build, st: PageState, e: Event)
    requires Valid(st)
    requires e.SubmitSearch? || e.PickIndustry? || e.ClickReset?
    ensures Valid(Handle(b, st, e))
  {
    var r := Handle(b, st, e);
    SublistOfSelf(Fixtures.Mentors);
    assert IsSublist(r.availableMentors, Fixtures.Mentors) && r.myMentors == st.myMentors;
  }

  /** The mount fetch relists the catalogue and resets the connections to the fixture. */
  lemma FetchKeepsValid(b: Build, st: PageState, d: Delay)
    requires Valid(st)
    ensures Valid(Handle(b, st, Fetched(d)))
  {
    var r := Handle(b, st, Fetched(d));
    if d == Elapsed {
      SublistOfSelf(Fixtures.Mentors);
      Fixtures.UserMentorsArePrefix();
      assert r.availableMentors == Fixtures.Mentors && r.myMentors == Fixtures.UserMentors;
    } else {
      assert r.availableMentors == st.availableMentors && r.myMentors == st.myMentors;
    }
  }

  /** Every handler keeps the page valid, with the industry filter as written or corrected. */
  lemma HandleKeepsValid(b: Build, st: PageState, e: Event)
    requires Valid(st)
    ensures Valid(Handle(b, st, e))
  {
    match e
    case SubmitConnect =>
    case Fetched(d) => FetchKeepsValid(b, st, d);
    case SubmitSearch => RelistKeepsValid(b, st, e);
    case PickIndustry(v) => RelistKeepsValid(b, st, e);
    case ClickReset => RelistKeepsValid(b, st, e);
    case _ => InputKeepsValid(b, st, e);
  }

  /** Any sequence of events keeps a valid page valid, in either build. */
  lemma {:induction false} RunKeepsValid(b: Build, st: PageState, events: seq<Event>)
    requires Valid(st)
    ensures Valid(Run(b, st, events))
    decreases |events|
  {
    if |events| > 0 {
      HandleKeepsValid(b, st, events[0]);
      RunKeepsValid(b, Handle(b, st, events[0]), events[1..]);
    }
  }

  /** The initial page is valid, so every page reachable in either build is. */
  lemma ReachableIsValid(b: Build, events: seq<Event>)
    ensures Valid(Run(b, Initial, events))
  {
    SublistOfSelf(Fixtures.Mentors);
    Fixtures.UserMentorsArePrefix();
    RunKeepsValid(b, Initial, events);
  }
}
