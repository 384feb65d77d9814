/**
  The application shell (src/App.tsx): one piece of state, the active tab, which the navigation
  bar sets and which decides the screen shown below it.
*/
module App {
  /** The screens the shell can show. */
  datatype View = DashboardView | ChallengeView | MentorView | ProgressPlaceholder | ResourcesPlaceholder

  /** The tab ids the navigation bar offers, in its order. */
  const NavTabs: seq<string> := ["dashboard", "challenges", "mentor", "progress", "resources"]

  /** `renderActiveComponent`: the screen for a tab id; any id it does not know shows the dashboard. */
  function Render(tab: string): (v: View)
  {
    match tab
    case "dashboard" => DashboardView
    case "challenges" => ChallengeView
    case "mentor" => MentorView
    case "progress" => ProgressPlaceholder
    case "resources" => ResourcesPlaceholder
    case _ => DashboardView
  }

  /** The tab whose button leads to a screen. */
  function TabOf(v: View): (tab: string)
    ensures tab in NavTabs
  {
    match v
    case DashboardView => NavTabs[0]
    case ChallengeView => NavTabs[1]
    case MentorView => NavTabs[2]
    case ProgressPlaceholder => NavTabs[3]
    case ResourcesPlaceholder => NavTabs[4]
  }

  /** Every screen has a tab of the navigation bar that shows it. */
  lemma RenderTabOf(v: View)
    ensures Render(TabOf(v)) == v
  {
  }

  /** Distinct tabs of the navigation bar show distinct screens. */
  lemma NavTabsDistinct(i: nat, j: nat)
    requires i < |NavTabs| && j < |NavTabs| && i != j
    ensures Render(NavTabs[i]) != Render(NavTabs[j])
  {
  }

  /** A tab id the navigation bar does not offer falls through to the dashboard. */
  lemma UnknownTabShowsDashboard(tab: string)
    requires tab !in NavTabs
    ensures Render(tab) == DashboardView
  {
  }

  /** The dashboard is the only screen reached from more than one id: every other screen has exactly one. */
  lemma RenderInverse(tab: string)
    requires Render(tab) != DashboardView
    ensures tab == TabOf(Render(tab))
  {
  }

  /** The shell's state. */
  class Shell {
    var activeTab: string

    /** The app opens on the dashboard tab. */
    constructor()
      ensures activeTab == "dashboard" && Showing() == DashboardView
    {
      activeTab := "dashboard";
    }

    /** What `renderActiveComponent` shows for the current tab. */
    function Showing(): (v: View)
      reads this
    {
      Render(activeTab)
    }

    /** `onTabChange`: the navigation bar reports a tab id and the shell switches to it. */
    method SetActiveTab(tab: string)
      modifies this
      ensures activeTab == tab && Showing() == Render(tab)
    {
      activeTab := tab;
    }
  }

  /** Opening the mentor tab from a fresh shell shows the mentor chat. */
  method OpenMentor() returns (v: View)
    ensures v == MentorView
  {
    var shell := new Shell();
    shell.SetActiveTab(NavTabs[2]);
    v := shell.Showing();
  }
}
