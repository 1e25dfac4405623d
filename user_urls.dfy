/** The ordered `urlpatterns` of the users app (users/urls.py). The fixed routes come
    before the catch-all `<str:username>/`. */
module UserUrls {
  import opened Wrappers
  import opened Strings
  import opened Routing

  datatype UserView =
    | Follow | Search | Reco | Register | Login | Refresh | UserDetail

  const UserRoutes: seq<Route<UserView>> := [
    Route([Lit("follow"), StrConv], Follow),
    Route([Lit("u"), Lit("search")], Search),
    Route([Lit("reco")], Reco),
    Route([Lit("register")], Register),
    Route([Lit("login")], Login),
    Route([Lit("refresh")], Refresh),
    Route([StrConv], UserDetail)
  ]

  /** The four single-segment names the fixed routes take before user detail is tried. */
  const ReservedNames: set<string> := {"reco", "register", "login", "refresh"}

  function ResolveUsers(path: string): Option<Match<UserView>> {
    Resolve(UserRoutes, path)
  }

  /** The view of a reserved name. */
  function ReservedView(u: string): UserView
    requires u in ReservedNames
  {
    if u == "reco" then Reco
    else if u == "register" then Register
    else if u == "login" then Login
    else Refresh
  }

  /** No two-piece route matches a one-segment path. */
  lemma OneSegmentSkipsTwoPieceRoutes(u: string)
    requires '/' !in u
    ensures !Matches(UserRoutes[0].pieces, u + "/") && !Matches(UserRoutes[1].pieces, u + "/")
  {
    SplitOne(u);
  }

  /** A single segment resolves to the fixed route of the same name when there is one, and
      otherwise to user detail with the segment as the username. */
  lemma SingleSegmentResolution(u: string)
    requires u != "" && '/' !in u
    ensures u in ReservedNames ==> ResolveUsers(u + "/") == Some(Match(ReservedView(u), []))
    ensures u !in ReservedNames ==> ResolveUsers(u + "/") == Some(Match(UserDetail, [StrArg(u)]))
  {
    if u in ReservedNames {
      ReservedResolution(u);
    } else {
      DetailResolution(u);
    }
  }

  /** The segment matches none of the fixed routes before route `k`, the first it matches. */
  lemma EarlierRoutesMiss(u: string, k: nat)
    requires '/' !in u && 2 <= k <= 6
    requires k < 6 ==> u == ["reco", "register", "login", "refresh"][k - 2]
    requires k == 6 ==> u !in ReservedNames
    ensures forall j :: 0 <= j < k ==> !Matches(UserRoutes[j].pieces, u + "/")
  {
    OneSegmentSkipsTwoPieceRoutes(u);
    MatchesOne(Lit("reco"), u);
    MatchesOne(Lit("register"), u);
    MatchesOne(Lit("login"), u);
    MatchesOne(Lit("refresh"), u);
    forall j | 0 <= j < k ensures !Matches(UserRoutes[j].pieces, u + "/") {
      if j == 0 {} else if j == 1 {} else if j == 2 {} else if j == 3 {} else if j == 4 {} else {}
    }
  }

  lemma ReservedResolution(u: string)
    requires u in ReservedNames
    ensures ResolveUsers(u + "/") == Some(Match(ReservedView(u), []))
  {
    var k := if u == "reco" then 2 else if u == "register" then 3 else if u == "login" then 4 else 5;
    EarlierRoutesMiss(u, k);
    SplitOne(u);
    MatchesOne(Lit(u), u);
    ArgsOfOne(Lit(u), u);
    ResolveAt(UserRoutes, u + "/", k);
  }

  lemma DetailResolution(u: string)
    requires u != "" && '/' !in u && u !in ReservedNames
    ensures ResolveUsers(u + "/") == Some(Match(UserDetail, [StrArg(u)]))
  {
    EarlierRoutesMiss(u, 6);
    SplitOne(u);
    MatchesOne(StrConv, u);
    ArgsOfOne(StrConv, u);
    ResolveAt(UserRoutes, u + "/", 6);
  }

  /** The reserved names never reach user detail. */
  lemma ReservedNamesNeverReachDetail(u: string)
    requires u in ReservedNames
    ensures ResolveUsers(u + "/").Some? && ResolveUsers(u + "/").value.view != UserDetail
  {
    SingleSegmentResolution(u);
  }

  /** `refresh/` is the token refresh view. */
  lemma RefreshPathReachesRefresh()
    ensures ResolveUsers("refresh/") == Some(Match(Refresh, []))
  {
    SingleSegmentResolution("refresh");
    assert "refresh" + "/" == "refresh/";
  }

  /** Whatever path resolves to user detail has exactly one segment: it is `u/` for the
      username `u` handed to the view, which is not a reserved name. Two-segment paths such
      as `follow/<x>/` and `u/search/` never get there. */
  lemma {:induction false} DetailPathsHaveOneSegment(path: string)
    requires ResolveUsers(path).Some? && ResolveUsers(path).value.view == UserDetail
    ensures exists u ::
      (u != "" && '/' !in u && u !in ReservedNames && path == u + "/" &&
       ResolveUsers(path).value.args == [StrArg(u)])
  {
    var i := ResolvedRoute(UserRoutes, path);
    assert i == 6;
    var segs := Split(path);
    assert |segs| == 2 && segs[1] == "";
    var u := segs[0];
    assert PieceMatches(UserRoutes[6].pieces[0], segs[0]);
    JoinSplit(path);
    assert Join(segs) == u + "/" + Join(segs[1..]);
    assert path == u + "/";
    SingleSegmentResolution(u);
  }

  /** `follow/<name>/` is the follow toggle for that name, whatever the name. */
  lemma FollowPathReachesFollow(u: string)
    requires u != "" && '/' !in u
    ensures ResolveUsers("follow/" + u + "/") == Some(Match(Follow, [StrArg(u)]))
  {
    var p := "follow/" + u + "/";
    assert p == "follow" + "/" + u + "/";
    MatchesTwo(Lit("follow"), StrConv, "follow", u);
    ResolveAt(UserRoutes, p, 0);
    SplitTwo("follow", u);
    assert Split(p) == ["follow", u, ""];
    ArgsOfTwo(Lit("follow"), StrConv, "follow", u);
    assert ArgsOf(UserRoutes[0].pieces, Split(p)) == [StrArg(u)];
  }

  /** `u/search/` is the search view. */
  lemma SearchPathReachesSearch()
    ensures ResolveUsers("u" + "/" + "search" + "/") == Some(Match(Search, []))
  {
    MatchesTwo(Lit("follow"), StrConv, "u", "search");
    MatchesTwo(Lit("u"), Lit("search"), "u", "search");
    ResolveAt(UserRoutes, "u" + "/" + "search" + "/", 1);
    SplitTwo("u", "search");
    ArgsOfTwo(Lit("u"), Lit("search"), "u", "search");
  }
}
