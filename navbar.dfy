/** The navigation bar's menu state and logout
    (frontend/src/components/NavBar.jsx). The app-wide login flag, which the
    bar clears through `setIsLoggedIn`, is kept here as `loggedIn`. */
module NavBar {
  import opened Common

  /** What the logout request gave back: a reply body with its optional
      `message`, or a thrown error. */
  datatype LogoutReply = Replied(message: Option<string>) | Threw

  /** The backend's logout message. */
  const LogoutMessage: string := "Logout successful"

  /** Logout keeps the session only for a reply whose message includes
      "Error"; a thrown error still logs out locally. */
  predicate KeepsSession(reply: LogoutReply)
  {
    reply.Replied? && reply.message.Some? && Contains(reply.message.value, "Error")
  }

  class Menus {
    var mobileOpen: bool
    var userMenuOpen: bool
    var loading: bool
    var loggedIn: bool

    /** The two menus are never open together. */
    predicate Valid()
      reads this
    {
      !(mobileOpen && userMenuOpen)
    }

    constructor(loggedIn: bool)
      ensures !mobileOpen && !userMenuOpen && !loading && this.loggedIn == loggedIn
      ensures Valid()
    {
      mobileOpen := false;
      userMenuOpen := false;
      loading := false;
      this.loggedIn := loggedIn;
    }

    /** `toggleUserMenu`: flips the user menu; opening it closes the mobile
        menu. */
    method ToggleUserMenu()
      requires Valid()
      modifies this
      ensures Valid()
      ensures userMenuOpen == !old(userMenuOpen)
      ensures mobileOpen == (old(mobileOpen) && old(userMenuOpen))
      ensures loading == old(loading) && loggedIn == old(loggedIn)
    {
      var wasOpen := userMenuOpen;
      userMenuOpen := !wasOpen;
      if !wasOpen {
        mobileOpen := false;
      }
    }

    /** `toggleMobileMenu`: flips the mobile menu; opening it closes the user
        menu. */
    method ToggleMobileMenu()
      requires Valid()
      modifies this
      ensures Valid()
      ensures mobileOpen == !old(mobileOpen)
      ensures userMenuOpen == (old(userMenuOpen) && old(mobileOpen))
      ensures loading == old(loading) && loggedIn == old(loggedIn)
    {
      var wasOpen := mobileOpen;
      mobileOpen := !wasOpen;
      if !wasOpen {
        userMenuOpen := false;
      }
    }

    /** A desktop link closes the user menu. */
    method DesktopLinkClicked()
      requires Valid()
      modifies this
      ensures Valid()
      ensures !userMenuOpen && mobileOpen == old(mobileOpen)
      ensures loading == old(loading) && loggedIn == old(loggedIn)
    {
      userMenuOpen := false;
    }

    /** A mobile link closes both menus. */
    method MobileLinkClicked()
      modifies this
      ensures Valid()
      ensures !userMenuOpen && !mobileOpen
      ensures loading == old(loading) && loggedIn == old(loggedIn)
    {
      mobileOpen := false;
      userMenuOpen := false;
    }

    /** `handleLogout`: unless the reply's message includes "Error", the user
        is logged out and sent to "/"; loading ends either way. */
    method Logout(reply: LogoutReply) returns (navigateTo: Option<string>)
      requires Valid()
      modifies this
      ensures Valid() && !loading
      ensures mobileOpen == old(mobileOpen) && userMenuOpen == old(userMenuOpen)
      ensures KeepsSession(reply) ==> loggedIn == old(loggedIn) && navigateTo.None?
      ensures !KeepsSession(reply) ==> !loggedIn && navigateTo == Some("/")
    {
      loading := true;
      if reply.Replied? && reply.message.Some? && Contains(reply.message.value, "Error") {
        loading := false;
        return None;
      }
      loggedIn := false;
      loading := false;
      navigateTo := Some("/");
    }
  }

  /** The backend's reply and a failed request both end the session in the
      browser; only a message mentioning "Error" keeps it. */
  lemma LogoutOutcomes(message: string)
    ensures !KeepsSession(Replied(Some(LogoutMessage)))
    ensures !KeepsSession(Threw) && !KeepsSession(Replied(None))
    ensures Contains(message, "Error") ==> KeepsSession(Replied(Some(message)))
  {
    NotContains(LogoutMessage, "Error");
  }
}
