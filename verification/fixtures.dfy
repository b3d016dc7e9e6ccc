/** The mock catalogue of `lib/data.ts`: the known user, mentors, jobs and courses,
    with the facts about them that the handlers rely on. Dates are UTC midnight of the
    listed day, in milliseconds since the epoch. */
module Fixtures {
  import opened Common
  import opened Types
  import Seqs

  /** The one identity the mock login recognises. */
  const CurrentUser := User(
    "user-1",
    "Jane Cooper",
    "jane@example.com",
    Some("/placeholder.svg?height=40&width=40&text=JC"),
    Mentee,
    Some("Product designer looking to transition into tech leadership"),
    Some(["UI/UX", "Product Design", "Figma", "User Research"]),
    Some("San Francisco, CA"),
    AsDate(1673740800000))

  const Mentors: seq<Mentor> := [
    Mentor("mentor-1", "Sarah Miller", "Senior Product Manager", "TechCorp",
      Some("/placeholder.svg?height=96&width=96&text=SM"),
      ["Career Transition", "Leadership", "Product Management"],
      "Helping women transition into tech leadership roles with 10+ years of experience.",
      12, "tech"),
    Mentor("mentor-2", "James Wilson", "Software Engineer", "CodeWorks",
      Some("/placeholder.svg?height=96&width=96&text=JW"),
      ["Web Development", "JavaScript", "React"],
      "Full-stack developer passionate about mentoring underrepresented groups in tech.",
      8, "tech"),
    Mentor("mentor-3", "Priya Patel", "UX Designer", "DesignHub",
      Some("/placeholder.svg?height=96&width=96&text=PP"),
      ["UI/UX", "Design Systems", "User Research"],
      "Designer focused on creating accessible and inclusive digital experiences.",
      15, "creative"),
    Mentor("mentor-4", "Michael Chen", "Data Scientist", "DataInsights",
      Some("/placeholder.svg?height=96&width=96&text=MC"),
      ["Machine Learning", "Python", "Data Analysis"],
      "Data scientist with experience helping minorities break into AI and data fields.",
      10, "tech"),
    Mentor("mentor-5", "Aisha Johnson", "Marketing Director", "GrowthMedia",
      Some("/placeholder.svg?height=96&width=96&text=AJ"),
      ["Digital Marketing", "Brand Strategy", "Social Media"],
      "Marketing expert specializing in helping women-owned businesses grow.",
      14, "marketing"),
    Mentor("mentor-6", "David Rodriguez", "Entrepreneur", "StartupLaunch",
      Some("/placeholder.svg?height=96&width=96&text=DR"),
      ["Startups", "Business Strategy", "Fundraising"],
      "Serial entrepreneur dedicated to supporting founders from diverse backgrounds.",
      18, "business")
  ]

  /** The mentors the user is already connected with. */
  const UserMentors: seq<Mentor> := [Mentors[0], Mentors[1]]

  const Jobs: seq<Job> := [
    Job("job-1", "UX Designer", "Inclusive Tech Co.",
      Some("/placeholder.svg?height=40&width=40&text=IT"),
      "San Francisco, CA (Remote)", FullTime, Remote,
      "Design user-centered experiences for web and mobile applications in an inclusive environment.",
      ["UI/UX", "Figma", "User Research", "Accessibility"],
      Salary(90000, 110000), 1681084800000, Some(true), None),
    Job("job-2", "Software Engineer", "EqualTech Solutions",
      Some("/placeholder.svg?height=40&width=40&text=ET"),
      "New York, NY (Hybrid)", FullTime, Hybrid,
      "Develop scalable web applications using modern JavaScript frameworks and accessibility best practices.",
      ["JavaScript", "React", "Node.js", "Accessibility"],
      Salary(120000, 150000), 1680912000000, None, Some(true)),
    Job("job-3", "Product Manager", "Diversity Innovations",
      Some("/placeholder.svg?height=40&width=40&text=DI"),
      "Austin, TX (Remote)", FullTime, Remote,
      "Lead product development with a focus on inclusive design and diverse user needs.",
      ["Product Management", "Agile", "User Research", "Inclusive Design"],
      Salary(110000, 140000), 1680652800000, Some(true), None),
    Job("job-4", "Data Analyst", "FairHire Inc.",
      Some("/placeholder.svg?height=40&width=40&text=FH"),
      "Chicago, IL (On-site)", FullTime, OnSite,
      "Analyze user data to derive insights and improve product accessibility and inclusivity.",
      ["SQL", "Python", "Data Visualization", "Statistics"],
      Salary(85000, 105000), 1680480000000, None, None),
    Job("job-5", "Marketing Specialist", "EquityFirst Media",
      Some("/placeholder.svg?height=40&width=40&text=EM"),
      "Seattle, WA (Remote)", FullTime, Remote,
      "Create and execute marketing campaigns focused on diverse audiences and inclusive messaging.",
      ["Digital Marketing", "Content Creation", "Social Media", "Analytics"],
      Salary(75000, 95000), 1680307200000, None, Some(true)),
    Job("job-6", "Project Coordinator", "AccessibleFuture",
      Some("/placeholder.svg?height=40&width=40&text=AF"),
      "Boston, MA (Hybrid)", FullTime, Hybrid,
      "Coordinate projects ensuring accessibility and inclusion throughout the development process.",
      ["Project Management", "Communication", "Organization", "Accessibility"],
      Salary(65000, 85000), 1680134400000, None, None)
  ]

  const Courses: seq<Course> := [
    Course("course-1", "Web Development Fundamentals", "Code Academy", Beginner, Duration(8, 2),
      "Learn HTML, CSS, and JavaScript basics for building responsive websites.",
      Some("/placeholder.svg?height=200&width=300&text=WebDev"),
      ["HTML", "CSS", "JavaScript", "Responsive Design"], true),
    Course("course-2", "Introduction to UX Design", "Design Institute", Beginner, Duration(6, 3),
      "Master the fundamentals of user experience design and usability testing.",
      Some("/placeholder.svg?height=200&width=300&text=UXDesign"),
      ["User Research", "Wireframing", "Prototyping", "Usability Testing"], true),
    Course("course-3", "Data Analysis with Python", "Data Learning Center", Intermediate, Duration(10, 4),
      "Analyze data using Python libraries like Pandas, NumPy, and Matplotlib.",
      Some("/placeholder.svg?height=200&width=300&text=DataPython"),
      ["Python", "Pandas", "NumPy", "Data Visualization"], true),
    Course("course-4", "Digital Marketing Essentials", "Marketing School", Beginner, Duration(4, 2),
      "Develop digital marketing skills including SEO, social media, and content strategy.",
      Some("/placeholder.svg?height=200&width=300&text=DigitalMarketing"),
      ["SEO", "Social Media", "Content Marketing", "Analytics"], true),
    Course("course-5", "Project Management Basics", "PM Knowledge Hub", Beginner, Duration(12, 5),
      "Learn project management methodologies, tools, and best practices.",
      Some("/placeholder.svg?height=200&width=300&text=ProjectManagement"),
      ["Agile", "Scrum", "Kanban", "Project Planning"], true),
    Course("course-6", "Financial Literacy for Everyone", "Financial Education Network", Beginner, Duration(5, 2),
      "Build financial knowledge including budgeting, saving, and investing basics.",
      Some("/placeholder.svg?height=200&width=300&text=FinancialLiteracy"),
      ["Budgeting", "Saving", "Investing", "Financial Planning"], true)
  ]

  /** The courses the user is enrolled in, with their progress in percent. */
  const UserCourses: seq<UserCourse> := [
    UserCourse(Courses[0], 35, 1678838400000),
    UserCourse(Courses[1], 15, 1680307200000)
  ]

  /** The known user's email, the only one the mock login accepts. */
  lemma KnownEmail()
    ensures CurrentUser.email == "jane@example.com"
    ensures CurrentUser.userType == Mentee && CurrentUser.id == "user-1"
  {
  }

  /** Mentor ids are pairwise distinct. */
  lemma MentorIdsUnique()
    ensures Seqs.UniqueBy(Mentors, MentorId)
  {
  }

  /** The industries in catalogue order; none of them is the "all" select value. */
  lemma MentorIndustries()
    ensures |Mentors| == 6
    ensures forall i :: 0 <= i < |Mentors| ==> Mentors[i].industry != "all" && Mentors[i].industry != ""
    ensures Mentors[0].industry == "tech" && Mentors[1].industry == "tech"
    ensures Mentors[2].industry == "creative" && Mentors[3].industry == "tech"
    ensures Mentors[4].industry == "marketing" && Mentors[5].industry == "business"
  {
  }

  /** The connected mentors are the first two of the catalogue. */
  lemma UserMentorsArePrefix()
    ensures UserMentors == Mentors[..2]
    ensures Seqs.UniqueBy(UserMentors, MentorId)
  {
  }

  /** Job ids are distinct, every salary range is ordered and every job is full-time. */
  lemma JobInvariants()
    ensures |Jobs| == 6
    ensures Seqs.UniqueBy(Jobs, JobId)
    ensures forall i :: 0 <= i < |Jobs| ==> Jobs[i].salary.min <= Jobs[i].salary.max
    ensures forall i :: 0 <= i < |Jobs| ==> Jobs[i].jobType == FullTime
  {
  }

  /** Every course is free; the enrolments copy the first two courses with progress in 0..100. */
  lemma CourseInvariants()
    ensures |Courses| == 6
    ensures forall i :: 0 <= i < |Courses| ==> Courses[i].isFree
    ensures |UserCourses| == 2
    ensures forall i :: 0 <= i < |UserCourses| ==>
      UserCourses[i].course == Courses[i] && 0 <= UserCourses[i].progress <= 100
    ensures UserCourses[0].progress == 35 && UserCourses[1].progress == 15
  {
  }
}
