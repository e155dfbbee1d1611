/** The dashboard's side navigation (Client/src/Components/Sidebar.tsx):
    four view flags shared through the app's context, the mobile open
    state, and logging out. */
module Sidebar {

  datatype View = Home | Assignments | Submissions | Tests

  class Navigation {
    var isHome: bool
    var isAssignments: bool
    var isSubmissions: bool
    var isTests: bool
    var isSidebarOpen: bool
    /** The browser's `localStorage`. */
    var storage: map<string, string>

    /** The flag of `v` is set. */
    predicate Showing(v: View)
      reads this
    {
      match v
      case Home => isHome
      case Assignments => isAssignments
      case Submissions => isSubmissions
      case Tests => isTests
    }

    /** Exactly the view `v` is shown. */
    predicate OnlyShowing(v: View)
      reads this
    {
      forall w: View :: Showing(w) <==> w == v
    }

    constructor (storage: map<string, string>)
      ensures OnlyShowing(Home) && !isSidebarOpen && this.storage == storage
    {
      isHome := true;
      isAssignments := false;
      isSubmissions := false;
      isTests := false;
      isSidebarOpen := false;
      this.storage := storage;
    }

    /** `toggleSidebar` (Sidebar.tsx:18-20). */
    method ToggleSidebar()
      modifies this
      ensures isSidebarOpen == !old(isSidebarOpen)
      ensures isHome == old(isHome) && isAssignments == old(isAssignments)
      ensures isSubmissions == old(isSubmissions) && isTests == old(isTests) && storage == old(storage)
    {
      isSidebarOpen := !isSidebarOpen;
    }

    /** `handleHomeClick` (Sidebar.tsx:22-28). */
    method HomeClick()
      modifies this
      ensures OnlyShowing(Home) && !isSidebarOpen && storage == old(storage)
    {
      isHome := true;
      isAssignments := false;
      isSubmissions := false;
      isTests := false;
      isSidebarOpen := false;
    }

    /** `handleAssignmentClick` (Sidebar.tsx:30-36). */
    method AssignmentClick()
      modifies this
      ensures OnlyShowing(Assignments) && !isSidebarOpen && storage == old(storage)
    {
      isHome := false;
      isAssignments := true;
      isSubmissions := false;
      isTests := false;
      isSidebarOpen := false;
    }

    /** `handleSubmissionsClick` (Sidebar.tsx:38-44). */
    method SubmissionsClick()
      modifies this
      ensures OnlyShowing(Submissions) && !isSidebarOpen && storage == old(storage)
    {
      isHome := false;
      isAssignments := false;
      isSubmissions := true;
      isTests := false;
      isSidebarOpen := false;
    }

    /** `handleTestsClick` (Sidebar.tsx:46-52). */
    method TestsClick()
      modifies this
      ensures OnlyShowing(Tests) && !isSidebarOpen && storage == old(storage)
    {
      isHome := false;
      isAssignments := false;
      isSubmissions := false;
      isTests := true;
      isSidebarOpen := false;
    }

    /** `handleLogoutClick` (Sidebar.tsx:54-57): the token is gone and every
        other stored entry stays. */
    method LogoutClick()
      modifies this
      ensures "token" !in storage
      ensures storage == old(storage) - {"token"}
      ensures isHome == old(isHome) && isAssignments == old(isAssignments)
      ensures isSubmissions == old(isSubmissions) && isTests == old(isTests)
      ensures isSidebarOpen == old(isSidebarOpen)
    {
      storage := storage - {"token"};
    }
  }
}
