# EquiLink core in Dafny

A model of the EquiLink web app, a platform that connects mentees with mentors, jobs and
courses. Everything the app shows comes from in-memory fixtures. The modelled core is:

- **The session** (`lib/auth.ts`). A state machine over an `AuthState` (user, loading flag,
  error) and the browser storage entry `equilink_user`. It has four operations: rehydrate on
  mount, login, signup and logout. Each handler is one pure transition. It takes the state and
  the storage slot and returns the new state, the new slot and the navigation it asks for.
- **The fixtures** (`lib/data.ts`). The current user, mentors, connected mentors, jobs, courses
  and enrolments, as constants. Lemmas state their invariants.
- **The job board** (`app/dashboard/opportunities/page.tsx`). Search, type and location
  filters, reset, save/unsave, apply, résumé pick and the mount fetch. Each is a transition on
  the page state. The page is also an event loop, with the dialog's Cancel button and
  open-change callback as one more event, whose invariant is proved for every sequence of the
  modelled events.
- **The mentor finder** (`app/dashboard/mentorship/page.tsx`). Search, industry filter, reset,
  connect and the mount fetch, plus the same event-loop invariant. The loop runs the industry
  filter either as written or corrected (see "## Findings"), and the invariant holds for both.
- **The dashboard overview** (`app/dashboard/page.tsx`). `formatTimeAgo`, the three-item
  recommendation slices and the first name in the greeting.
- **The dashboard shell** (`app/dashboard/layout.tsx`). Notification bell, sidebar toggle,
  logout, avatar initials, header title and the highlighted sidebar link.

Modelling choices:

- Dates are integer milliseconds since the epoch. A user's creation time also records its
  form (`Types.Moment`): a `Date` in memory, ISO text once read back from storage.
- Strings are `seq<char>`. Case mapping covers ASCII letters only.
- Every awaited one-second delay becomes a `Delay` input: `Elapsed`, or `Faulted` when the
  handler's `catch` branch runs.
- The clock read by signup and `formatTimeAgo` is a parameter `now`.
- Navigation is returned as a `Nav` value instead of performed.

Behaviour of the code that the model keeps:

- Nothing guards the dashboard routes: the dashboard layout never reads the session and shows
  a hard-coded user.
- An absent storage entry only clears the loading flag and keeps whatever user and error were
  in memory. From the initial state that is the anonymous session with no error, as
  `Auth.RehydrateFromInitial` shows.
- A malformed storage entry gives the error "Invalid stored user data".
- An empty-string storage entry is falsy and so is treated like a missing one (`Slot.Blank`).
- Storage holds `JSON.stringify` of the user, so a reload returns the creation time as text
  rather than a `Date` (`Auth.Parsed`).

Modules, one per file: `Common`, `Seqs` (filter as an order-preserving exact selection,
keyed append and toggle), `Text` (case mapping, substring search, split/join, decimal
printing), `Types`, `Fixtures`, `Auth`, `Opportunities`, `Mentorship`, `Dashboard`, `Layout`.

## Model

| member | source | states |
|---|---|---|
| Auth.InitialIsUnresolved | lib/auth.ts:19-23 | The session starts with no user, loading and no error, so it is unresolved. Memory and storage trivially agree. |
| Auth.Rehydrate | lib/auth.ts:26-46 | Rehydration always leaves the loading phase. An absent or empty entry keeps the user and error in memory. A parsable entry yields the written user, its creation time turned into text, with no error. An unparsable one yields no user and "Invalid stored user data". |
| Auth.RehydrateFromInitial | lib/auth.ts:19-46 | From the initial state the session ends authenticated exactly when storage holds a user, carries an error exactly when the entry is malformed, and is otherwise anonymous with no error. |
| Auth.Begin | lib/auth.ts:49 | While login or signup waits, the session is loading with its error cleared and its user kept. |
| Auth.Login | lib/auth.ts:48-78 | Only the known email succeeds: it stores and holds the fixture user and goes to "/dashboard". Any other email gives "Invalid email or password". A fault gives "An error occurred during login". Failures keep the slot and navigate nowhere. |
| Auth.LoginAcceptsOnlyKnownEmail | lib/auth.ts:56 | A completed login authenticates if and only if the email is "jane@example.com", whatever the prior state. |
| Auth.LoginIgnoresPassword | lib/auth.ts:48-78 | Two logins that differ only in the password have the same outcome. |
| Auth.OrElse | lib/auth.ts:90-91 | The logical-or default returns the fallback exactly when the value is missing or empty (or equals the fallback), and otherwise the value. |
| Auth.NewUser | lib/auth.ts:88-94 | The new user's id is "user-" followed by the clock and it is created at that clock value. Name and email are never empty. A missing or empty name becomes "New User" and a missing or empty email "user@example.com"; otherwise both are kept. The role defaults to mentee. The optional profile fields are absent. |
| Auth.SignupIdsDistinct | lib/auth.ts:89 | Signups at different clock values get different ids. |
| Auth.Signup | lib/auth.ts:80-110 | A completed signup holds and stores the new user and goes to "/dashboard". A fault gives "An error occurred during signup" and keeps the slot. |
| Auth.SignupScenario | lib/auth.ts:88-102 | Signing up with a name and email keeps both, defaults the role to mentee and stores the same user. |
| Auth.Logout | lib/auth.ts:112-120 | Logout empties the slot, leaves the session anonymous without error and goes to "/". |
| Auth.LogoutIdempotent | lib/auth.ts:112-120 | Logging out twice gives the state and slot of logging out once. |
| Auth.Parsed | lib/auth.ts:32 | Parsing the stored JSON of a user gives back every field unchanged except the creation time, which becomes text of the same instant. A user whose creation time is already text comes back identical. |
| Auth.HandlersKeepPersisted | lib/auth.ts:26-120 | Every handler keeps this invariant: a user in memory is, up to the form of its creation time, the user storage parses to. |
| Auth.ReloadRestoresSession | lib/auth.ts:26-35 | A reload after a settled, error-free session with a stored user gives a settled, error-free session whose user has the same fields and creation instant, with the instant as text, and is identical exactly when memory already held the text form. |
| Auth.ReloadAfterHandlers | lib/auth.ts:48-120 | After a successful login or signup, a reload brings back the same user and creation instant but not the identical session, because memory held a `Date` and the reload gives text. After logout the reload gives exactly the logged-out session. |
| Auth.FailedLoginKeepsStoredUser | lib/auth.ts:64-70 | A failed login while signed in drops the user from memory but not from storage, so a reload signs that user back in. |
| Auth.RehydrateKnownUser | lib/auth.ts:28-35 | Reading back the stored fixture user yields "Jane Cooper", settled. |
| Types.NamesAreDistinct | lib/types.ts:42-43 | The job type and work mode literals are pairwise distinct, and none is empty or "all". |
| Fixtures.KnownEmail | lib/data.ts:4-14 | The current user is "user-1", a mentee with email "jane@example.com". |
| Fixtures.MentorIdsUnique | lib/data.ts:17-90 | Mentor ids are pairwise distinct. |
| Fixtures.MentorIndustries | lib/data.ts:17-90 | There are six mentors, with industries tech, tech, creative, tech, marketing, business. None is empty or "all". |
| Fixtures.UserMentorsArePrefix | lib/data.ts:93 | The connected mentors are the first two of the catalogue, with distinct ids. |
| Fixtures.JobInvariants | lib/data.ts:96-198 | There are six jobs with distinct ids. Each salary minimum is at most its maximum. Every job is full-time. |
| Fixtures.CourseInvariants | lib/data.ts:201-306 | There are six free courses. The two enrolments are the first two courses, with progress 35 and 15. |
| Seqs.FilterSelectsExactly | app/dashboard/opportunities/page.tsx:72-78 | `filter` returns an order-preserving sublist that holds exactly the elements satisfying the predicate. |
| Seqs.FilterFilter | app/dashboard/opportunities/page.tsx:89-95 | Filtering twice is filtering once by the conjunction. |
| Seqs.Any | app/dashboard/opportunities/page.tsx:77 | `some` holds exactly when some element satisfies the predicate. |
| Seqs.AppendIfAbsent | app/dashboard/opportunities/page.tsx:140-142 | Appends the element only when its key is absent. The key is present afterwards and the old list is a prefix. Key uniqueness is preserved. |
| Seqs.AppendIfAbsentIdempotent | app/dashboard/mentorship/page.tsx:115-117 | Appending the same element twice equals appending it once. |
| Seqs.Toggle | app/dashboard/opportunities/page.tsx:108-117 | Key presence flips. A present key removes exactly the entries carrying it, in order. An absent key appends the element. Key uniqueness is preserved. |
| Seqs.ToggleTwiceRestores | app/dashboard/opportunities/page.tsx:107-123 | Toggling an absent element twice restores the list. |
| Seqs.Take | app/dashboard/page.tsx:35-37 | `slice(0, n)` keeps the first n elements, or all when there are fewer. |
| Text.Lower | app/dashboard/opportunities/page.tsx:74 | Lower-casing keeps the length and maps every character to its lower-case form. |
| Text.LowerForgetsCase | app/dashboard/mentorship/page.tsx:75 | Lower-casing is idempotent and ignores a prior upper-casing. |
| Text.Contains | app/dashboard/opportunities/page.tsx:74 | `includes` holds exactly when the needle occurs at some position. |
| Text.Split | app/dashboard/layout.tsx:43 | Splitting yields at least one part, and no part contains the separator. |
| Text.SplitJoin | app/dashboard/layout.tsx:42-45 | Joining the parts with the separator rebuilds the string. There is one part more than there are separators. |
| Text.SplitHead | app/dashboard/page.tsx:80 | The first part is the longest prefix free of the separator. |
| Text.NatToString | app/dashboard/page.tsx:71 | A count prints as a non-empty run of decimal digits without a leading zero. |
| Text.NatToStringValue | app/dashboard/page.tsx:73 | The printed digits read back as the same number. |
| Text.NatToStringInjective | app/dashboard/page.tsx:73 | Different counts print differently. |
| Text.IntToString | lib/auth.ts:89 | A negative clock prints as "-" followed by its magnitude. |
| Text.IntToStringInjective | lib/auth.ts:89 | Different clock values print differently. |
| Opportunities.SearchJobs | app/dashboard/opportunities/page.tsx:71-83 | The empty query lists the whole catalogue. Any other query lists exactly the jobs whose title, company, description or some skill contains it (ignoring case), in catalogue order. |
| Opportunities.HandleSearch | app/dashboard/opportunities/page.tsx:67-84 | Submitting a search always searches the full catalogue, whatever is listed, and changes nothing but the list. |
| Opportunities.FilterJobs | app/dashboard/opportunities/page.tsx:86-98 | The two successive filters list exactly the jobs whose type and mode match every filter that is set and not "all", in catalogue order. |
| Opportunities.FilterJobsIsFilter | app/dashboard/opportunities/page.tsx:87-95 | The type filter followed by the location filter equals a single filter on the combined condition, in every combination of set filters. |
| Opportunities.ApplyFilters | app/dashboard/opportunities/page.tsx:86-98 | `applyFilters` replaces the list with the filtered catalogue and changes nothing else. |
| Opportunities.ResetFilters | app/dashboard/opportunities/page.tsx:100-105 | Reset clears both filters and the query and lists every job. No other field changes. |
| Opportunities.FilterButton | app/dashboard/opportunities/page.tsx:199-208 | The filter button applies the filters when either is set, and resets otherwise. |
| Opportunities.ApplyFiltersIgnoresSearch | app/dashboard/opportunities/page.tsx:86-98 | The filtered list depends on neither the query nor what was listed before. |
| Opportunities.AllWildcardsListEverything | app/dashboard/opportunities/page.tsx:89-95 | With "all" in both selects the button lists every job but, unlike reset, keeps the query. |
| Opportunities.HandleSaveJob | app/dashboard/opportunities/page.tsx:107-123 | Saving flips whether the job's id is saved. Unsaving removes exactly the entries with that id. Saving appends the job. Saved ids stay unique. |
| Opportunities.SaveTwiceRestores | app/dashboard/opportunities/page.tsx:107-123 | Saving then unsaving a job restores the page. |
| Opportunities.HandleApply | app/dashboard/opportunities/page.tsx:125-128 | Apply selects the job and opens the dialog. |
| Opportunities.HandleSubmitApplication | app/dashboard/opportunities/page.tsx:130-147 | Without a selection nothing happens. Otherwise the job is applied for once (its id was absent or is appended) and the dialog closes with note and file cleared. Applied ids stay unique. |
| Opportunities.SubmitApplicationIdempotent | app/dashboard/opportunities/page.tsx:130-147 | Submitting twice equals submitting once. |
| Opportunities.HandleFileChange | app/dashboard/opportunities/page.tsx:149-153 | The first picked file becomes the résumé. An empty pick changes nothing. |
| Opportunities.FetchJobs | app/dashboard/opportunities/page.tsx:42-65 | The mount fetch always ends loading. It lists the catalogue on success and keeps the list on a fault. |
| Opportunities.HandleKeepsValid | app/dashboard/opportunities/page.tsx:67-153 | Every handler keeps the listed jobs an ordered sublist of the catalogue, and keeps saved and applied ids unique. |
| Opportunities.RunKeepsValid | app/dashboard/opportunities/page.tsx:67-153 | Any sequence of the modelled events, closing the dialog included, keeps a valid page valid. |
| Opportunities.ReachableIsValid | app/dashboard/opportunities/page.tsx:30-40 | The mounted page is valid, hence so is every page reachable from it. |
| Mentorship.HandleSearch | app/dashboard/mentorship/page.tsx:68-86 | The empty query lists every mentor. Any other query lists exactly the mentors whose name, some skill, bio, title or company contains it (ignoring case), in catalogue order. |
| Mentorship.HandleIndustryFilterAsWritten | app/dashboard/mentorship/page.tsx:88-98 | Any non-empty value, "all" included, keeps exactly the mentors of that industry. The empty value lists everyone. |
| Mentorship.AllIndustriesListsNobody | app/dashboard/mentorship/page.tsx:171 | As written, choosing "All Industries" empties the list, although the catalogue is not empty. |
| Mentorship.HandleIndustryFilter | app/dashboard/mentorship/page.tsx:88-98 | Corrected: "all", like the empty value, lists every mentor. Any other value keeps exactly that industry, in order. |
| Mentorship.IndustryFilterFixOnlyTouchesAll | app/dashboard/mentorship/page.tsx:88-98 | The corrected and as-written handlers give the same page if and only if the value is not "all". On "all" the corrected one lists every mentor and the as-written one nobody. |
| Mentorship.TechMentors | app/dashboard/mentorship/page.tsx:172 | Choosing "tech" lists Sarah Miller, James Wilson and Michael Chen, in that order. |
| Mentorship.ResetButton | app/dashboard/mentorship/page.tsx:184-188 | The filter button clears the query and the industry and lists every mentor. No other field changes. |
| Mentorship.HandleConnect | app/dashboard/mentorship/page.tsx:100-103 | Connect selects the mentor and opens the dialog. |
| Mentorship.HandleSubmitConnect | app/dashboard/mentorship/page.tsx:105-121 | Without a selection nothing happens. Otherwise the mentor is connected once and the dialog closes with its message cleared. Connected ids stay unique. |
| Mentorship.SubmitConnectIdempotent | app/dashboard/mentorship/page.tsx:105-121 | Sending the same request twice equals sending it once. |
| Mentorship.FetchMentors | app/dashboard/mentorship/page.tsx:42-66 | The mount fetch always ends loading. On success it lists every mentor and resets the connections to the fixture; on a fault it keeps both lists. No other field changes. |
| Mentorship.HandleKeepsValid | app/dashboard/mentorship/page.tsx:68-121 | With the industry filter as written or corrected, every handler keeps the listed mentors an ordered sublist of the catalogue and the connected ids unique. |
| Mentorship.RunKeepsValid | app/dashboard/mentorship/page.tsx:68-121 | With the industry filter as written or corrected, any sequence of the modelled events, closing the dialog included, keeps a valid page valid. |
| Mentorship.ReachableIsValid | app/dashboard/mentorship/page.tsx:35-36 | The mounted page is valid, hence so is every page reachable from it, with the industry filter as written or corrected. |
| Dashboard.HoursBetween | app/dashboard/page.tsx:67 | The hour count is the floor of the difference: h whole hours fit and h + 1 do not, future dates included. |
| Dashboard.Bucket | app/dashboard/page.tsx:65-74 | The five phrasings cover disjoint millisecond ranges that together cover every difference: under 1 h, 1–2 h, 2–24 h (with the exact hour count), 24–48 h, and 48 h or more (with the exact whole-day count). |
| Dashboard.FormatTimeAgo | app/dashboard/page.tsx:65-74 | The text is the rendering of the bucket the difference falls in. Under an hour, including the future, reads "Just now". A day to two reads "Yesterday". |
| Dashboard.RenderInjective | app/dashboard/page.tsx:69-73 | Different buckets never print the same text, so the text determines the bucket and its count. |
| Dashboard.Recommend | app/dashboard/page.tsx:35-37 | A recommendation list is the first three entries of its catalogue, or all of them when there are fewer. |
| Dashboard.FetchRecommendations | app/dashboard/page.tsx:26-52 | The mount fetch always ends loading. On success it shows the first three mentors, jobs and courses. On a fault it leaves the lists as they were. |
| Dashboard.FirstName | app/dashboard/page.tsx:80 | The greeting shows nothing without a user. Otherwise it shows the longest space-free prefix of the name. |
| Dashboard.GreetsJane | app/dashboard/page.tsx:80 | The known user is greeted as "Jane". |
| Layout.InitialLayout | app/dashboard/layout.tsx:17-19 | The shell starts with three unread notifications, so the badge shows, an empty search box and an open sidebar. |
| Layout.HandleNotificationClick | app/dashboard/layout.tsx:33-35 | Clicking the bell zeroes the count, so the badge disappears. The query and the sidebar stay. |
| Layout.NotificationClickIdempotent | app/dashboard/layout.tsx:33-35 | A second click changes nothing more. |
| Layout.ToggleSidebar | app/dashboard/layout.tsx:49-51 | The toggle flips the sidebar and nothing else. |
| Layout.ToggleSidebarTwice | app/dashboard/layout.tsx:49-51 | Two toggles restore the layout. |
| Layout.SidebarLabel | app/dashboard/layout.tsx:89 | A sidebar caption shows exactly while the sidebar is open. |
| Layout.ToggleFlipsCaption | app/dashboard/layout.tsx:49-51 | For a non-empty caption, the sidebar button hides it exactly when it was showing. |
| Layout.HandleLogout | app/dashboard/layout.tsx:37-39 | The menu's logout keeps the layout state and the storage entry and only navigates to "/". |
| Layout.LayoutLogoutKeepsSession | app/dashboard/layout.tsx:37-39 | The menu's logout goes where the session's logout goes. A reload after it still signs in the stored user, while a reload after the session's logout finds nobody. |
| Layout.Firsts | app/dashboard/layout.tsx:44-45 | Mapping parts to their first character and joining yields one character per non-empty part: that part's first, in order. |
| Layout.GetInitials | app/dashboard/layout.tsx:41-47 | The initials have exactly one letter per non-empty space-separated word: its first character, upper-cased. |
| Layout.JaneCooperInitials | app/dashboard/layout.tsx:23 | The hard-coded "Jane Cooper" shows "JC". |
| Layout.TitlePathsDistinct | app/dashboard/layout.tsx:189-196 | The eight titled paths are pairwise distinct. |
| Layout.HeaderTitleIsLookup | app/dashboard/layout.tsx:189-196 | The eight concatenated captions amount to a lookup: a titled path shows its own title, and any other path shows nothing. |
| Layout.ActiveLinkIsUnique | app/dashboard/layout.tsx:84-144 | At most one sidebar link is highlighted. When one is, the header shows that link's caption. The settings page has a title but no link. |

## Left out

- Route protection (withholding dashboard pages while the session loads, redirecting anonymous visitors): the code has none, so there is nothing to model.
- JSON serialisation and parsing of the stored user: modelled by the `Slot` variants and `Auth.Parsed`. A text that parses to something other than a user is treated as well-formed by the code; the model has no such variant.
- The characters of the ISO-8601 text of a stored creation time: `Types.Moment.AsText` keeps the instant the text denotes, which that format preserves to the millisecond.
- `useAuth` throwing outside its provider, and the React context plumbing: framework wiring with no logic of its own.
- Toast notifications, `console.log`/`console.error`, and the layout's search form, which only logs: output with no effect on state.
- `setTimeout` latency, concurrency and interleaving of in-flight handlers. Each handler is modelled as the state published before its delay (`Auth.Begin`) and the state after it completes. Overlapping calls are not modelled.
- The dashboard mount fetch's `recentDiscussions` slice: the discussions, groups and events fixtures are not part of this model. The slice would be the same `Take` as the other three.
- `activeTab` state on every page, and the mentorship page's expertise, experience and availability fields: stored, never read by a handler.
- `handleScheduleMeeting`, `handleSubmitMentorApplication`, `handleCompleteProfile` and `handleFindOpportunities`: they only show a toast or set `window.location`.
- The learning, community and report pages and the landing page: not part of this model.
- Floating-point fields (mentor and course `rating`) and the salary display divided by 1000: no handler depends on them.
- Layout.Firsts: takes the first character of each word, while `part[0]` in TypeScript takes the first UTF-16 code unit, which is half of a surrogate pair for a word starting outside the Basic Multilingual Plane; the only name the layout passes is the hard-coded "Jane Cooper".
- Text.Lower: covers ASCII letters only, because JavaScript's full Unicode case mapping is not modelled.
- Auth.Signup: reads `Date.now()` and `new Date()` as one clock value `now`; the code makes two reads, which may differ by a millisecond.
- Dashboard.FormatTimeAgo: the clock `now` is a parameter instead of `new Date()`.
- Layout.HandleLogout: the layout's user is hard-coded and it never calls the session's logout, so the model keeps the two separate.

## Findings

| source | as written | input that shows it | evidently intended | confidence | as-written member | corrected member |
|---|---|---|---|---|---|---|
| app/dashboard/mentorship/page.tsx:88-98 | `handleIndustryFilter` treats every non-empty value as an industry, including "all", which the select offers as "All Industries" | choosing "All Industries" (value "all") | "all" lists every mentor, as the opportunities page does for its "all" values | high, not executed | Mentorship.HandleIndustryFilterAsWritten | Mentorship.HandleIndustryFilter |

`Mentorship.AllIndustriesListsNobody` proves that the as-written handler lists no mentor for "all".
The event loop (`Mentorship.Handle`) runs either handler, chosen by its `Build` argument, and
the validity lemmas hold for both.
