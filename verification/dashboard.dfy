/** The overview page of `app/dashboard/page.tsx`: relative-time formatting, the
    recommendation slices and the greeting's first name. */
module Dashboard {
  import opened Common
  import opened Types
  import opened Text
  import opened Seqs
  import Fixtures

  const HourMs: int := 1000 * 60 * 60
  const DayMs: int := 24 * HourMs

  /* ---------------- relative time ---------------- */

  /** The five phrasings of `formatTimeAgo`. */
  datatype Elapsed = JustNow | OneHourAgo | HoursAgo(hours: nat) | Yesterday | DaysAgo(days: nat)

  /** `Math.floor((now - date) / 3600000)`; Dafny's division by a positive constant already
      rounds down, also for dates in the future. */
  function HoursBetween(now: int, date: int): (h: int)
    ensures h * HourMs <= now - date < (h + 1) * HourMs
  {
    (now - date) / HourMs
  }

  /** The bucket a time difference falls in, characterised by the difference in milliseconds:
      the five ranges are disjoint and cover every difference, future dates included. */
  function Bucket(now: int, date: int): (e: Elapsed)
    ensures e == JustNow <==> now - date < HourMs
    ensures e == OneHourAgo <==> HourMs <= now - date < 2 * HourMs
    ensures e.HoursAgo? <==> 2 * HourMs <= now - date < 24 * HourMs
    ensures e.HoursAgo? ==> 2 <= e.hours < 24 && e.hours * HourMs <= now - date < (e.hours + 1) * HourMs
    ensures e == Yesterday <==> 24 * HourMs <= now - date < 48 * HourMs
    ensures e.DaysAgo? <==> 48 * HourMs <= now - date
    ensures e.DaysAgo? ==> e.days >= 2 && e.days * DayMs <= now - date < (e.days + 1) * DayMs
  {
    var h := HoursBetween(now, date);
    if h < 1 then JustNow
    else if h == 1 then OneHourAgo
    else if h < 24 then HoursAgo(h)
    else if h < 48 then Yesterday
    else
      var d := h / 24;
      assert d * 24 <= h < (d + 1) * 24;
      assert d * DayMs <= h * HourMs;
      assert (h + 1) * HourMs <= (d + 1) * DayMs;
      DaysAgo(d)
  }

  /** The text shown for a bucket. */
  function Render(e: Elapsed): string
  {
    match e
    case JustNow => "Just now"
    case OneHourAgo => "1 hour ago"
    case HoursAgo(h) => NatToString(h) + " hours ago"
    case Yesterday => "Yesterday"
    case DaysAgo(d) => NatToString(d) + " days ago"
  }

  /** The buckets `Bucket` can produce. */
  ghost predicate Producible(e: Elapsed)
  {
    match e
    case HoursAgo(h) => 2 <= h < 24
    case DaysAgo(d) => d >= 2
    case _ => true
  }

  /** `formatTimeAgo(date)` read at clock value `now`. */
  function FormatTimeAgo(now: int, date: int): (s: string)
    ensures Producible(Bucket(now, date)) && s == Render(Bucket(now, date))
    ensures now - date < HourMs ==> s == "Just now"
    ensures 24 * HourMs <= now - date < 48 * HourMs ==> s == "Yesterday"
  {
    Render(Bucket(now, date))
  }

  /** Equal suffixes cancel. */
  lemma CancelSuffix(a: string, b: string, x: string)
    requires a + x == b + x
    ensures a == b
  {
    assert |a| == |b|;
    assert a == (a + x)[..|a|];
    assert b == (b + x)[..|b|];
  }

  /** Every day count prints as some digits followed by " days ago". */
  lemma DaysTextShape(d: nat)
    ensures var s := NatToString(d) + " days ago"; |s| >= 10 && s[|s| - 8] == 'd'
  {
  }

  /** Different buckets never print the same text, so the text determines the bucket. */
  lemma RenderInjective(e1: Elapsed, e2: Elapsed)
    requires Producible(e1) && Producible(e2)
    requires Render(e1) == Render(e2)
    ensures e1 == e2
  {
    match e1 {
      case HoursAgo(h1) =>
        var s := Render(e1);
        assert s[|s| - 6] == 'r';
        if e2.HoursAgo? {
          CancelSuffix(NatToString(h1), NatToString(e2.hours), " hours ago");
          NatToStringInjective(h1, e2.hours);
        }
      case DaysAgo(d1) =>
        var s := Render(e1);
        assert s[|s| - 6] == 'y';
        if e2.DaysAgo? {
          CancelSuffix(NatToString(d1), NatToString(e2.days), " days ago");
          NatToStringInjective(d1, e2.days);
        }
      case OneHourAgo =>
        if e2.DaysAgo? {
          DaysTextShape(e2.days);
        }
      case _ =>
    }
  }

  /* ---------------- recommendations ---------------- */

  /** The first three entries of a catalogue, fewer if it is shorter (`slice(0, 3)`). */
  function Recommend<T>(catalogue: seq<T>): (r: seq<T>)
    ensures |r| == if |catalogue| < 3 then |catalogue| else 3
    ensures r == catalogue[..|r|]
  {
    Take(catalogue, 3)
  }

  datatype PageState = PageState(
    recommendedMentors: seq<Mentor>,
    recommendedJobs: seq<Job>,
    recommendedCourses: seq<Course>,
    isLoading: bool)

  const Initial := PageState([], [], [], true)

  /** The mount effect after its delay: fills the three recommendation lists (left empty
      when the fetch faults) and leaves the loading state either way. */
  function FetchRecommendations(st: PageState, delay: Delay): (r: PageState)
    ensures !r.isLoading
    ensures delay == Elapsed ==>
      && r.recommendedMentors == Fixtures.Mentors[..3]
      && r.recommendedJobs == Fixtures.Jobs[..3]
      && r.recommendedCourses == Fixtures.Courses[..3]
    ensures delay == Faulted ==> r == st.(isLoading := false)
  {
    if delay == Elapsed then
      PageState(Recommend(Fixtures.Mentors), Recommend(Fixtures.Jobs), Recommend(Fixtures.Courses), false)
    else
      st.(isLoading := false)
  }

  /* ---------------- greeting ---------------- */

  /** `user?.name.split(" ")[0]`: the name up to its first space, or nothing without a user. */
  function FirstName(user: Option<User>): (r: string)
    ensures user.None? ==> r == ""
    ensures user.Some? ==>
      var n := user.value.name;
      && |r| <= |n| && r == n[..|r|] && ' ' !in r
      && (|r| == |n| || n[|r|] == ' ')
  {
    if user.None? then ""
    else
      SplitHead(user.value.name, ' ');
      Split(user.value.name, ' ')[0]
  }

  /** The known user is greeted as "Jane". */
  lemma GreetsJane()
    ensures FirstName(Some(Fixtures.CurrentUser)) == "Jane"
  {
    var n := Fixtures.CurrentUser.name;
    assert n == "Jane" + [' '] + "Cooper";
    SplitAtFirst("Jane", "Cooper", ' ');
  }
}
