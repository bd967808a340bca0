/** The sidebar store (`useSidebar`): one collapsed/expanded flag. */
module Sidebar {

  datatype SidebarState = SidebarState(isCollapsed: bool)

  /** The sidebar starts expanded. */
  function InitialSidebar(): (r: SidebarState)
    ensures !r.isCollapsed
  {
    SidebarState(false)
  }

  /** `toggle`: flips the flag. */
  function Toggle(s: SidebarState): (r: SidebarState)
    ensures r.isCollapsed != s.isCollapsed
  {
    s.(isCollapsed := !s.isCollapsed)
  }

  /** Toggling twice restores the state. */
  lemma ToggleTwice(s: SidebarState)
    ensures Toggle(Toggle(s)) == s
  {
  }
}
