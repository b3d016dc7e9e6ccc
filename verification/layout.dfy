/** The dashboard shell of `app/dashboard/layout.tsx`: its three pieces of state, their
    handlers, the initials avatar, the header title and the active navigation link. */
module Layout {
  import opened Common
  import opened Text
  import opened Seqs
  import opened Types
  import Auth

  datatype LayoutState = LayoutState(notifications: int, searchQuery: string, isSidebarOpen: bool)

  /** Three unread notifications, an empty search box and an open sidebar. */
  const Initial := LayoutState(3, "", true)

  /* ---------------- notifications and sidebar ---------------- */

  /** The bell shows its count only while it is positive. */
  predicate ShowsBadge(st: LayoutState)
  {
    st.notifications > 0
  }

  /** The shell opens with three unread notifications showing, an empty search box and the
      sidebar open. */
  lemma InitialLayout()
    ensures Initial.notifications == 3 && ShowsBadge(Initial)
    ensures Initial.searchQuery == "" && Initial.isSidebarOpen
  {
  }

  /** Clicking the bell marks everything read: the badge disappears, nothing else changes. */
  function HandleNotificationClick(st: LayoutState): (r: LayoutState)
    ensures !ShowsBadge(r) && r.notifications == 0
    ensures r.searchQuery == st.searchQuery && r.isSidebarOpen == st.isSidebarOpen
  {
    st.(notifications := 0)
  }

  /** Clicking the bell a second time changes nothing more. */
  lemma NotificationClickIdempotent(st: LayoutState)
    ensures HandleNotificationClick(HandleNotificationClick(st)) == HandleNotificationClick(st)
  {
  }

  /** The sidebar button flips the sidebar and nothing else. */
  function ToggleSidebar(st: LayoutState): (r: LayoutState)
    ensures r.isSidebarOpen != st.isSidebarOpen
    ensures r.notifications == st.notifications && r.searchQuery == st.searchQuery
  {
    st.(isSidebarOpen := !st.isSidebarOpen)
  }

  /** Two clicks on the sidebar button restore the layout. */
  lemma ToggleSidebarTwice(st: LayoutState)
    ensures ToggleSidebar(ToggleSidebar(st)) == st
  {
  }

  /** A sidebar caption (`isSidebarOpen && <span>…</span>`): shown only while the sidebar is open. */
  function SidebarLabel(st: LayoutState, text: string): (r: string)
    ensures st.isSidebarOpen ==> r == text
    ensures !st.isSidebarOpen ==> r == ""
  {
    Shown(st.isSidebarOpen, text)
  }

  /** For a non-empty caption, the sidebar button flips whether the caption shows. */
  lemma ToggleFlipsCaption(st: LayoutState, text: string)
    requires text != ""
    ensures (SidebarLabel(ToggleSidebar(st), text) == "") <==> (SidebarLabel(st, text) == text)
  {
  }

  /** The "Log out" menu entry only asks for the landing page: the layout's own state and the
      stored session entry are both left as they were. */
  function HandleLogout(st: LayoutState, slot: Auth.Slot): (r: (LayoutState, Auth.Slot, Nav))
    ensures r.0 == st && r.1 == slot
    ensures r.2 == PushTo("/")
  {
    (st, slot, PushTo("/"))
  }

  /** The layout's logout lands where the session's logout lands, but a reload afterwards
      still signs the stored user in, where after the session's logout it finds nobody. */
  lemma LayoutLogoutKeepsSession(st: LayoutState, s: AuthState, u: User)
    ensures HandleLogout(st, Auth.WellFormed(u)).2 == Auth.Logout(s, Auth.WellFormed(u)).nav
    ensures Auth.Rehydrate(Auth.Initial, HandleLogout(st, Auth.WellFormed(u)).1).user.Some?
    ensures Auth.Rehydrate(Auth.Initial, Auth.Logout(s, Auth.WellFormed(u)).slot).user.None?
  {
  }

  /* ---------------- initials ---------------- */

  function NonEmpty(): string -> bool
  {
    (p: string) => p != ""
  }

  /** `parts.map(part => part[0]).join("")`: an empty part yields `undefined`, which `join`
      prints as nothing, so the result holds the first letter of each non-empty part. */
  function Firsts(parts: seq<string>): (r: string)
    ensures |r| == |Filter(parts, NonEmpty())|
    ensures forall k :: 0 <= k < |r| ==> r[k] == Filter(parts, NonEmpty())[k][0]
    decreases |parts|
  {
    if |parts| == 0 then ""
    else
      assert parts == [parts[0]] + parts[1..];
      if parts[0] != "" then [parts[0][0]] + Firsts(parts[1..])
      else Firsts(parts[1..])
  }

  /** `getInitials(name)`: one upper-cased letter per non-empty space-separated part, in order. */
  function GetInitials(name: string): (r: string)
    ensures var words := Filter(Split(name, ' '), NonEmpty());
      && |r| == |words|
      && forall k :: 0 <= k < |r| ==> r[k] == UpperChar(words[k][0]) && !IsLower(r[k])
  {
    Upper(Firsts(Split(name, ' ')))
  }

  /** The hard-coded name splits into two words. */
  lemma JaneCooperWords()
    ensures Split("Jane Cooper", ' ') == ["Jane", "Cooper"]
  {
    assert "Jane Cooper" == "Jane" + [' '] + "Cooper";
    SplitAtFirst("Jane", "Cooper", ' ');
    SplitWithoutSep("Cooper", ' ');
  }

  /** The first letters of the two words. */
  lemma FirstsJC()
    ensures Firsts(["Jane", "Cooper"]) == "JC"
  {
    var parts: seq<string> := ["Jane", "Cooper"];
    assert parts[1..] == ["Cooper"];
    assert ["Cooper"][1..] == [];
    assert Firsts(["Cooper"]) == "C";
  }

  /** Upper-casing leaves capitals alone. */
  lemma UpperJC()
    ensures Upper("JC") == "JC"
  {
  }

  /** The avatar of the hard-coded "Jane Cooper" reads "JC". */
  lemma JaneCooperInitials()
    ensures GetInitials("Jane Cooper") == "JC"
  {
    JaneCooperWords();
    FirstsJC();
    UpperJC();
  }

  /* ---------------- header title and active link ---------------- */

  /** The pages the header knows, with their titles. */
  const Titles: seq<(string, string)> := [
    ("/dashboard", "Dashboard"),
    ("/dashboard/opportunities", "Opportunities"),
    ("/dashboard/mentorship", "Mentorship"),
    ("/dashboard/learning", "Learning Hub"),
    ("/dashboard/community", "Community"),
    ("/dashboard/events", "Events"),
    ("/dashboard/report", "Anonymous Reporting"),
    ("/dashboard/settings", "Settings")
  ]

  /** `cond && "text"` inside JSX: the text when the condition holds, nothing otherwise. */
  function Shown(cond: bool, text: string): string
  {
    if cond then text else ""
  }

  /** The header renders all eight conditional captions side by side. */
  function HeaderTitle(path: string): string
  {
    Shown(path == "/dashboard", "Dashboard")
    + Shown(path == "/dashboard/opportunities", "Opportunities")
    + Shown(path == "/dashboard/mentorship", "Mentorship")
    + Shown(path == "/dashboard/learning", "Learning Hub")
    + Shown(path == "/dashboard/community", "Community")
    + Shown(path == "/dashboard/events", "Events")
    + Shown(path == "/dashboard/report", "Anonymous Reporting")
    + Shown(path == "/dashboard/settings", "Settings")
  }

  /** No two known pages share a path. */
  lemma TitlePathsDistinct()
    ensures forall i, j :: 0 <= i < j < |Titles| ==> Titles[i].0 != Titles[j].0
  {
    assert "/dashboard/events"[11] != "/dashboard/report"[11];
    assert "/dashboard/learning"[11] != "/dashboard/settings"[11];
  }

  /** Since a path equals at most one known page, the concatenated header is a table lookup:
      the title of the known page, or nothing for any other path. */
  lemma HeaderTitleIsLookup(path: string)
    ensures forall i :: 0 <= i < |Titles| && Titles[i].0 == path ==> HeaderTitle(path) == Titles[i].1
    ensures (forall i :: 0 <= i < |Titles| ==> Titles[i].0 != path) ==> HeaderTitle(path) == ""
  {
    TitlePathsDistinct();
    if forall i :: 0 <= i < |Titles| ==> Titles[i].0 != path {
      assert Titles[0].0 != path && Titles[1].0 != path && Titles[2].0 != path && Titles[3].0 != path;
      assert Titles[4].0 != path && Titles[5].0 != path && Titles[6].0 != path && Titles[7].0 != path;
    }
  }

  /** The sidebar links in display order, and their captions. */
  const NavLinks: seq<string> := [
    "/dashboard", "/dashboard/opportunities", "/dashboard/mentorship", "/dashboard/learning",
    "/dashboard/community", "/dashboard/events", "/dashboard/report"
  ]
  const NavLabels: seq<string> := [
    "Dashboard", "Opportunities", "Mentorship", "Learning Hub", "Community", "Events",
    "Anonymous Reporting"
  ]

  /** A link is highlighted exactly when the pathname equals its href. */
  predicate IsActive(path: string, href: string)
  {
    path == href
  }

  /** Each sidebar link is one of the titled pages, with its caption as the title. */
  lemma NavLinksAreTitled()
    ensures |NavLinks| == |NavLabels| == 7 && |Titles| == 8
    ensures forall i :: 0 <= i < |NavLinks| ==> NavLinks[i] == Titles[i].0 && NavLabels[i] == Titles[i].1
  {
  }

  /** At most one link is highlighted, and when one is, the header shows that link's
      caption. The settings page has a title but no link. */
  lemma ActiveLinkIsUnique(path: string)
    ensures forall i, j :: 0 <= i < j < |NavLinks| ==> !(IsActive(path, NavLinks[i]) && IsActive(path, NavLinks[j]))
    ensures forall i :: 0 <= i < |NavLinks| && IsActive(path, NavLinks[i]) ==> HeaderTitle(path) == NavLabels[i]
    ensures HeaderTitle("/dashboard/settings") == "Settings" && "/dashboard/settings" !in NavLinks
  {
    TitlePathsDistinct();
    NavLinksAreTitled();
    HeaderTitleIsLookup(path);
    HeaderTitleIsLookup("/dashboard/settings");
    assert Titles[7].0 == "/dashboard/settings";
  }
}
