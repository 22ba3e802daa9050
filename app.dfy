/** The route table of the console and its guard. Every page except the
    login page sits behind ProtectedRoute; unmatched paths go home. */
module App {
  import opened Wrappers
  import opened Text
  import Auth

  datatype Page = LoginPage | DashboardPage | EnrollmentsPage | EnrollmentDetailPage(id: string) | ArchivePage

  /** What the router shows: the guard's placeholder, a <Navigate>, or a page
      (the protected pages inside Layout). */
  datatype View = Placeholder | Redirect(to: string, replace: bool) | Render(page: Page)

  /** ProtectedRoute: the placeholder while the session is being checked,
      else a history-replacing redirect to the login page when nobody is
      signed in, else the page. */
  function ProtectedRoute(loading: bool, user: Option<Auth.User>, page: Page): (v: View)
    ensures v == Placeholder <==> loading
    ensures v == Redirect("/login", true) <==> !loading && user.None?
    ensures v == Render(page) <==> !loading && user.Some?
  {
    if loading then Placeholder
    else if user.None? then Redirect("/login", true)
    else Render(page)
  }

  /** The non-empty '/'-separated segments of a path. */
  function NonEmpty(xs: seq<string>): (r: seq<string>)
    ensures forall i :: 0 <= i < |r| ==> r[i] != [] && r[i] in xs
    ensures forall i :: 0 <= i < |xs| && xs[i] != [] ==> xs[i] in r
    decreases |xs|
  {
    if xs == [] then []
    else if xs[0] == [] then NonEmpty(xs[1..])
    else [xs[0]] + NonEmpty(xs[1..])
  }

  function Segments(path: string): seq<string> {
    NonEmpty(Split(path, '/'))
  }

  /** The page a path selects, if any. */
  function Match(segments: seq<string>): Option<Page> {
    if segments == [] then Some(DashboardPage)
    else if segments == ["login"] then Some(LoginPage)
    else if segments == ["enrollments"] then Some(EnrollmentsPage)
    else if |segments| == 2 && segments[0] == "enrollments" then Some(EnrollmentDetailPage(segments[1]))
    else if segments == ["archive"] then Some(ArchivePage)
    else None
  }

  /** The view for a path in the current session. */
  function Route(path: string, loading: bool, user: Option<Auth.User>): View {
    match Match(Segments(path))
    case None => Redirect("/", true)
    case Some(LoginPage) => Render(LoginPage)
    case Some(page) => ProtectedRoute(loading, user, page)
  }

  lemma SegmentsOfLogin()
    ensures Segments("/login") == ["login"]
  {
    assert Split("/login", '/') == ["", "login"] by {
      SplitJoin(["", "login"], '/');
      assert Join(["", "login"], '/') == "/login";
    }
  }

  lemma SegmentsOfRoot()
    ensures Segments("/") == []
  {
    assert Split("/", '/') == ["", ""] by {
      SplitJoin(["", ""], '/');
      assert Join(["", ""], '/') == "/";
    }
  }

  /** The login page is outside the guard: it is shown in every session. */
  lemma LoginAlwaysReachable(loading: bool, user: Option<Auth.User>)
    ensures Route("/login", loading, user) == Render(LoginPage)
  {
    SegmentsOfLogin();
  }

  /** An unmatched path redirects home with history replace. */
  lemma UnmatchedGoesHome(path: string, loading: bool, user: Option<Auth.User>)
    requires Match(Segments(path)).None?
    ensures Route(path, loading, user) == Redirect("/", true)
  {
  }

  /** A row link `/enrollments/<id>` opens the detail page of that id. */
  lemma DetailPathOpensDetail(id: string, loading: bool, user: Option<Auth.User>)
    requires id != "" && '/' !in id
    ensures Match(Segments("/enrollments/" + id)) == Some(EnrollmentDetailPage(id))
    ensures !loading && user.Some? ==> Route("/enrollments/" + id, loading, user) == Render(EnrollmentDetailPage(id))
  {
    var xs := ["", "enrollments", id];
    assert Split("/enrollments/" + id, '/') == xs by {
      assert xs[1..] == ["enrollments", id] && xs[1..][1..] == [id];
      assert Join(["enrollments", id], '/') == "enrollments" + "/" + id;
      assert Join(xs, '/') == "/enrollments/" + id;
      assert forall i :: 0 <= i < |xs| ==> '/' !in xs[i];
      SplitJoin(xs, '/');
    }
    assert NonEmpty(["", "enrollments", id]) == ["enrollments", id] by {
      var xs := ["", "enrollments", id];
      assert xs[1..] == ["enrollments", id] && xs[1..][1..] == [id] && [id][1..] == [];
      assert NonEmpty([id]) == [id];
      assert NonEmpty(["enrollments", id]) == ["enrollments"] + [id];
    }
  }

  /** Redirects settle: following the redirects of any path reaches a page
      or the placeholder after at most two of them (path → "/" → "/login"). */
  lemma {:induction false} RedirectsSettle(path: string, loading: bool, user: Option<Auth.User>)
    ensures var v1 := Route(path, loading, user);
      v1.Redirect? ==>
        var v2 := Route(v1.to, loading, user);
        v2.Redirect? ==> !Route(v2.to, loading, user).Redirect?
  {
    var v1 := Route(path, loading, user);
    if v1.Redirect? {
      assert v1.to == "/" || v1.to == "/login";
      SegmentsOfRoot();
      assert Route("/", loading, user) == ProtectedRoute(loading, user, DashboardPage);
      LoginAlwaysReachable(loading, user);
    }
  }

  /** With the session invariant, a protected page is rendered only for a
      signed-in administrator once the startup check is over. */
  lemma ProtectedPagesNeedAdmin(auth: Auth.AuthProvider, path: string, page: Page)
    requires auth.Valid()
    requires Route(path, auth.loading, auth.user) == Render(page) && page != LoginPage
    ensures !auth.loading && auth.user.Some? && auth.user.value.role == "admin"
    ensures auth.Session() == Auth.Authenticated(auth.user.value)
  {
  }
}
