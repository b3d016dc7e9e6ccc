/** The records of `lib/types.ts`. Dates are integer milliseconds since the epoch; the
    floating-point `rating` fields are not modelled. */
module Types {
  import opened Common

  datatype UserType = Mentee | MentorUser | Employer | Organization

  /** A user's creation time. In memory it is a `Date`; `JSON.stringify` writes a `Date` as
      its ISO-8601 text and `JSON.parse` leaves that text a string, so a user read back from
      storage carries the text. Either form denotes an instant in milliseconds since the epoch. */
  datatype Moment = AsDate(ms: int) | AsText(ms: int)

  /** The signed-in principal. */
  datatype User = User(
    id: string,
    name: string,
    email: string,
    image: Option<string>,
    userType: UserType,
    bio: Option<string>,
    skills: Option<seq<string>>,
    location: Option<string>,
    createdAt: Moment)

  /** What the session exposes to the pages. */
  datatype AuthState = AuthState(user: Option<User>, isLoading: bool, error: Option<string>)

  datatype Mentor = Mentor(
    id: string,
    name: string,
    title: string,
    company: string,
    image: Option<string>,
    skills: seq<string>,
    bio: string,
    menteeCount: int,
    industry: string)

  datatype JobType = FullTime | PartTime | Contract | Internship | Volunteer

  /** The string literal of each job type in `lib/types.ts` (what the type filter compares with). */
  function JobTypeName(t: JobType): string
  {
    match t
    case FullTime => "full-time"
    case PartTime => "part-time"
    case Contract => "contract"
    case Internship => "internship"
    case Volunteer => "volunteer"
  }

  datatype WorkMode = Remote | Hybrid | OnSite

  /** The string literal of each work mode in `lib/types.ts` (what the location filter compares with). */
  function WorkModeName(m: WorkMode): string
  {
    match m
    case Remote => "remote"
    case Hybrid => "hybrid"
    case OnSite => "on-site"
  }

  /** Type and mode names are distinct and none of them is the "all" wildcard or empty. */
  lemma NamesAreDistinct(t1: JobType, t2: JobType, m1: WorkMode, m2: WorkMode)
    ensures JobTypeName(t1) == JobTypeName(t2) ==> t1 == t2
    ensures WorkModeName(m1) == WorkModeName(m2) ==> m1 == m2
    ensures JobTypeName(t1) !in {"", "all"} && WorkModeName(m1) !in {"", "all"}
  {
  }

  datatype Salary = Salary(min: int, max: int)

  datatype Job = Job(
    id: string,
    title: string,
    company: string,
    companyLogo: Option<string>,
    location: string,
    jobType: JobType,
    mode: WorkMode,
    description: string,
    skills: seq<string>,
    salary: Salary,
    postedAt: int,
    isNew: Option<bool>,
    isFeatured: Option<bool>)

  datatype CourseLevel = Beginner | Intermediate | Advanced

  datatype Duration = Duration(weeks: int, hoursPerWeek: int)

  datatype Course = Course(
    id: string,
    title: string,
    provider: string,
    level: CourseLevel,
    duration: Duration,
    description: string,
    image: Option<string>,
    topics: seq<string>,
    isFree: bool)

  /** A course the user is enrolled in: the course's fields plus progress and enrolment date. */
  datatype UserCourse = UserCourse(course: Course, progress: int, enrolledAt: int)

  function JobId(j: Job): string { j.id }
  function MentorId(m: Mentor): string { m.id }
}
