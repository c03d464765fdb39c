/**
 * The navigation bar of app/components/Navbar.tsx: which link is active for
 * the current path, and the `isMenuOpen`/`isLoggingOut` flags that the menu
 * toggle, navigation and the logout button drive.
 */
module Navbar {
  import opened Wrappers
  import opened CredentialStore
  import Session

  /**
   * A link is active when the path is its `href`, or, for any link other
   * than the root, when the path starts with it.
   */
  predicate IsActive(pathname: string, href: string) {
    pathname == href || (href != "/" && href <= pathname)
  }

  /** The root link is active only on the root itself. */
  lemma RootActiveOnlyOnRoot(pathname: string)
    ensures IsActive(pathname, "/") <==> pathname == "/"
  {
  }

  /** Any other link is active exactly on the paths that start with it. */
  lemma ActiveIsPrefix(pathname: string, href: string)
    requires href != "/"
    ensures IsActive(pathname, href) <==> href <= pathname
  {
  }

  /** Being a prefix is enough: there is no check for a segment boundary. */
  lemma NoSegmentBoundary()
    ensures IsActive("/projectsX", "/projects")
    ensures IsActive("/projects/42", "/projects")
  {
    assert "/projectsX"[..|"/projects"|] == "/projects";
    assert "/projects/42"[..|"/projects"|] == "/projects";
  }

  /** `aria-current`: `page` on the active link, absent otherwise. */
  function AriaCurrent(pathname: string, href: string): (r: Option<string>)
    ensures r == Some("page") <==> IsActive(pathname, href)
    ensures r.None? <==> !IsActive(pathname, href)
  {
    if IsActive(pathname, href) then Some("page") else None
  }

  /** The navigation bar's state. */
  class NavbarState {
    var pathname: string
    var isMenuOpen: bool
    var isLoggingOut: bool

    constructor (pathname: string)
      ensures this.pathname == pathname && !isMenuOpen && !isLoggingOut
    {
      this.pathname := pathname;
      isMenuOpen := false;
      isLoggingOut := false;
    }

    /** The menu button flips the menu. */
    method ToggleMenu()
      modifies this`isMenuOpen
      ensures isMenuOpen == !old(isMenuOpen)
    {
      isMenuOpen := !isMenuOpen;
    }

    /** A new path: the effect keyed on `pathname` closes the menu when the path changes. */
    method Navigate(next: string)
      modifies this`pathname, this`isMenuOpen
      ensures pathname == next
      ensures isMenuOpen == if next != old(pathname) then false else old(isMenuOpen)
    {
      if next != pathname {
        pathname := next;
        isMenuOpen := false;
      }
    }

    /**
     * `handleLogout`. `session` is `null` when the context's `logout` is not a
     * function, and then nothing happens. Otherwise the session's `logout`
     * runs with the server's reply; whatever it throws is swallowed, and both
     * flags end false.
     */
    method HandleLogout(session: Session.AuthHook?, reply: Session.Reply)
      modifies this`isLoggingOut, this`isMenuOpen
      modifies if session == null then {} else {session, session.store}
      ensures session == null ==> isLoggingOut == old(isLoggingOut) && isMenuOpen == old(isMenuOpen)
      ensures session != null ==> !isLoggingOut && !isMenuOpen
      ensures session != null ==>
        session.store.State() == Persist(session.store.env, old(session.store.State()), JsValues.JNull, JsValues.JNum(DefaultMaxAge)).media
    {
      if session == null {
        return;
      }
      isLoggingOut := true;
      var outcome := session.Logout(reply);
      // A rejected logout is only logged.
      isLoggingOut := false;
      isMenuOpen := false;
    }
  }
}
