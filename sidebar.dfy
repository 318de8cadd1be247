/**
 * The dashboard's side navigation (web/components/dashboard/sidebar.tsx): which entry is
 * highlighted for the current path, and the open flag of the menu on small screens.
 */
module Sidebar {
  datatype NavItem = NavItem(name: string, href: string)

  const DashboardHref := "/dashboard"

  /** The fixed navigation table. */
  const Navigation: seq<NavItem> := [
    NavItem("Dashboard", "/dashboard"),
    NavItem("Patients", "/dashboard/patients"),
    NavItem("Settings", "/dashboard/settings")
  ]

  /**
   * An entry is active when the path is its href, or, for every entry but the dashboard
   * itself, when the path starts with its href.
   */
  predicate IsActive(pathname: string, href: string)
    ensures IsActive(pathname, href) ==> href <= pathname
  {
    pathname == href || (href != DashboardHref && href <= pathname)
  }

  /** The dashboard entry is active on `/dashboard` and nowhere else. */
  lemma DashboardOnlyExact(pathname: string)
    ensures IsActive(pathname, DashboardHref) <==> pathname == DashboardHref
  {
  }

  /** The other entries are active on every path under their href. */
  lemma SectionsArePrefixes(pathname: string, i: int)
    requires 1 <= i < |Navigation|
    ensures IsActive(pathname, Navigation[i].href) <==> Navigation[i].href <= pathname
  {
  }

  /** The test is on characters, not on path segments: `/dashboard/patientsX` highlights Patients. */
  lemma CharacterPrefix()
    ensures IsActive("/dashboard/patientsX", Navigation[1].href)
    ensures !IsActive("/dashboard/patientsX", Navigation[0].href)
  {
    assert "/dashboard/patientsX"[..|"/dashboard/patients"|] == "/dashboard/patients";
  }

  /** A path under `/dashboard/patients` is not under `/dashboard/settings`, and `/dashboard` is under neither. */
  lemma SectionsExclusive(pathname: string)
    ensures !(IsActive(pathname, "/dashboard/patients") && IsActive(pathname, "/dashboard/settings"))
    ensures IsActive(pathname, DashboardHref) ==>
      !IsActive(pathname, "/dashboard/patients") && !IsActive(pathname, "/dashboard/settings")
  {
    if "/dashboard/patients" <= pathname {
      assert pathname[11] == "/dashboard/patients"[11] == 'p';
    }
  }

  /** With the three configured entries, no path highlights two of them. */
  lemma AtMostOneActive(pathname: string, i: int, j: int)
    requires 0 <= i < |Navigation| && 0 <= j < |Navigation|
    requires IsActive(pathname, Navigation[i].href) && IsActive(pathname, Navigation[j].href)
    ensures i == j
  {
    SectionsExclusive(pathname);
  }

  /** The menu's open flag on small screens. */
  class MenuState {
    var isMobileMenuOpen: bool

    constructor ()
      ensures !isMobileMenuOpen
    {
      isMobileMenuOpen := false;
    }

    /** The menu button flips the flag. */
    method ToggleMenu()
      modifies this
      ensures isMobileMenuOpen == !old(isMobileMenuOpen)
    {
      isMobileMenuOpen := !isMobileMenuOpen;
    }

    /** A click on the overlay, which is only shown while the menu is open, closes it. */
    method OverlayClick()
      requires isMobileMenuOpen
      modifies this
      ensures !isMobileMenuOpen
    {
      isMobileMenuOpen := false;
    }

    /** Following a navigation link closes the menu. */
    method LinkClick()
      modifies this
      ensures !isMobileMenuOpen
    {
      isMobileMenuOpen := false;
    }
  }
}
