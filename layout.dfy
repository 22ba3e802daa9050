/** The shell around the protected pages: the navigation links and which of
    them is highlighted, the signed-in user's name, sign-out, and the mobile
    menu drawer. */
module Layout {
  import opened Wrappers
  import opened Text
  import Api
  import Auth
  import App

  /** `isActive(path)` for the current pathname: the dashboard link only on
      "/" itself, any other link on every pathname that starts with its
      path, as a string and not as a path segment. */
  function IsActive(pathname: string, path: string): (active: bool)
    ensures path == "/" ==> (active <==> pathname == "/")
    ensures path != "/" ==> (active <==> path <= pathname)
  {
    pathname == path || (path != "/" && path <= pathname)
  }

  /** The two links are never highlighted together. */
  lemma DashboardAndEnrollmentsExclusive(pathname: string)
    ensures !(IsActive(pathname, "/") && IsActive(pathname, "/enrollments"))
  {
  }

  /** The detail pages keep the Enrollments link highlighted. */
  lemma DetailKeepsEnrollmentsActive(id: string)
    ensures IsActive("/enrollments/" + id, "/enrollments")
    ensures !IsActive("/enrollments/" + id, "/")
  {
    assert ("/enrollments/" + id)[..|"/enrollments"|] == "/enrollments";
  }

  /** The prefix is a string prefix: a pathname that merely begins with the
      same letters also highlights the link. */
  lemma PrefixIsNotASegment()
    ensures IsActive("/enrollments-old", "/enrollments")
  {
    assert "/enrollments-old"[..|"/enrollments"|] == "/enrollments";
  }

  /** The archive page highlights neither link. */
  lemma ArchiveHighlightsNothing()
    ensures !IsActive("/archive", "/") && !IsActive("/archive", "/enrollments")
  {
    assert "/archive"[1] != "/enrollments"[1];
  }

  /** `user?.name || user?.email`; nothing is shown without a user. */
  function DisplayName(user: Option<Auth.User>): string {
    if user.None? then ""
    else if user.value.name != "" then user.value.name
    else user.value.email
  }

  /** For a user the provider adopted the fallback never fires: the name
      already falls back to the e-mail address, so the header shows the
      identity's name, or its e-mail when the name is empty. */
  lemma DisplayNameOfAdopted(u: Api.Identity)
    ensures DisplayName(Some(Auth.Adopt(u))) == Auth.Adopt(u).name
    ensures DisplayName(Some(Auth.Adopt(u))) == (if u.name != "" then u.name else u.email)
  {
  }

  class LayoutView {
    var mobileNavOpen: bool

    constructor ()
      ensures !mobileNavOpen
    {
      mobileNavOpen := false;
    }

    /** The menu button. */
    method ToggleMenu()
      modifies this
      ensures mobileNavOpen == !old(mobileNavOpen)
    {
      mobileNavOpen := !mobileNavOpen;
    }

    /** A navigation link: the drawer closes and the router goes to the link. */
    method ChooseLink(path: string) returns (navigateTo: string)
      modifies this
      ensures !mobileNavOpen
      ensures navigateTo == path
    {
      mobileNavOpen := false;
      navigateTo := path;
    }

    /** `handleLogout`: the session is ended, then the router goes to the
        login page, which is shown whatever the session is. */
    method HandleLogout(auth: Auth.AuthProvider) returns (navigateTo: string)
      modifies auth, auth.store
      ensures auth.Valid()
      ensures auth.user == None && auth.loading == old(auth.loading)
      ensures Api.StoredToken(auth.store.items) == None
      ensures auth.store.items == old(auth.store.items) - {Api.TokenKey}
      ensures navigateTo == "/login"
      ensures App.Route(navigateTo, auth.loading, auth.user) == App.Render(App.LoginPage)
    {
      auth.Logout();
      navigateTo := "/login";
      App.LoginAlwaysReachable(auth.loading, auth.user);
    }

    /** The drawer's sign-out button: it closes the drawer, then signs out. */
    method MobileSignOut(auth: Auth.AuthProvider) returns (navigateTo: string)
      modifies this, auth, auth.store
      ensures !mobileNavOpen
      ensures auth.Valid()
      ensures auth.user == None && auth.loading == old(auth.loading)
      ensures auth.store.items == old(auth.store.items) - {Api.TokenKey}
      ensures navigateTo == "/login"
    {
      mobileNavOpen := false;
      navigateTo := HandleLogout(auth);
    }
  }
}
