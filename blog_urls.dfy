/** The ordered `urlpatterns` of the blog app (blog/urls.py). */
module BlogUrls {
  import opened Wrappers
  import opened Strings
  import opened Routing

  datatype BlogView =
    | PostList | PostDetail | UserPosts | LikePost | SharePost
    | UserLikes | UserShared | CommentList | CommentDetail

  const BlogRoutes: seq<Route<BlogView>> := [
    Route([], PostList),
    Route([IntConv], PostDetail),
    Route([Lit("my"), StrConv], UserPosts),
    Route([Lit("like"), IntConv], LikePost),
    Route([Lit("shared"), IntConv], SharePost),
    Route([Lit("likes"), StrConv], UserLikes),
    Route([Lit("shared"), StrConv], UserShared),
    Route([Lit("comments"), IntConv], CommentList),
    Route([Lit("comment"), IntConv], CommentDetail)
  ]

  function ResolveBlog(path: string): Option<Match<BlogView>> {
    Resolve(BlogRoutes, path)
  }

  /** A segment of digits holds no `/`. */
  lemma DigitsHaveNoSlash(d: string)
    requires IsDigits(d)
    ensures '/' !in d
  {
    forall i | 0 <= i < |d| ensures d[i] != '/' {
      assert IsDigit(d[i]);
    }
  }

  /** The routes a two-segment path `a/b/` matches, one by one. */
  lemma TwoSegmentMatches(a: string, b: string)
    requires a != "" && b != "" && '/' !in a && '/' !in b
    ensures var p := a + "/" + b + "/";
      && !Matches(BlogRoutes[0].pieces, p)
      && !Matches(BlogRoutes[1].pieces, p)
      && (Matches(BlogRoutes[2].pieces, p) <==> a == "my")
      && (Matches(BlogRoutes[3].pieces, p) <==> a == "like" && IsDigits(b))
      && (Matches(BlogRoutes[4].pieces, p) <==> a == "shared" && IsDigits(b))
      && (Matches(BlogRoutes[5].pieces, p) <==> a == "likes")
      && (Matches(BlogRoutes[6].pieces, p) <==> a == "shared")
      && (Matches(BlogRoutes[7].pieces, p) <==> a == "comments" && IsDigits(b))
      && (Matches(BlogRoutes[8].pieces, p) <==> a == "comment" && IsDigits(b))
  {
    FirstTwoSegmentMatches(a, b);
    LastTwoSegmentMatches(a, b);
  }

  lemma FirstTwoSegmentMatches(a: string, b: string)
    requires a != "" && b != "" && '/' !in a && '/' !in b
    ensures var p := a + "/" + b + "/";
      && !Matches(BlogRoutes[0].pieces, p)
      && !Matches(BlogRoutes[1].pieces, p)
      && (Matches(BlogRoutes[2].pieces, p) <==> a == "my")
      && (Matches(BlogRoutes[3].pieces, p) <==> a == "like" && IsDigits(b))
      && (Matches(BlogRoutes[4].pieces, p) <==> a == "shared" && IsDigits(b))
  {
    SplitTwo(a, b);
    MatchesTwo(Lit("my"), StrConv, a, b);
    MatchesTwo(Lit("like"), IntConv, a, b);
    MatchesTwo(Lit("shared"), IntConv, a, b);
  }

  lemma LastTwoSegmentMatches(a: string, b: string)
    requires a != "" && b != "" && '/' !in a && '/' !in b
    ensures var p := a + "/" + b + "/";
      && (Matches(BlogRoutes[5].pieces, p) <==> a == "likes")
      && (Matches(BlogRoutes[6].pieces, p) <==> a == "shared")
      && (Matches(BlogRoutes[7].pieces, p) <==> a == "comments" && IsDigits(b))
      && (Matches(BlogRoutes[8].pieces, p) <==> a == "comment" && IsDigits(b))
  {
    MatchesTwo(Lit("likes"), StrConv, a, b);
    MatchesTwo(Lit("shared"), StrConv, a, b);
    MatchesTwo(Lit("comments"), IntConv, a, b);
    MatchesTwo(Lit("comment"), IntConv, a, b);
  }

  /** A two-segment path `lit/b/` resolves to route `k`, `lit/<conv>/`, when it matches
      that route and none before it, with the argument the converter reads. */
  lemma ResolveTwoSegments(lit: string, b: string, k: nat, conv: Piece, view: BlogView)
    requires '/' !in lit && '/' !in b && k < |BlogRoutes| && BlogRoutes[k] == Route([Lit(lit), conv], view)
    requires forall j :: 0 <= j < k ==> !Matches(BlogRoutes[j].pieces, lit + "/" + b + "/")
    requires PieceMatches(conv, b)
    ensures ResolveBlog(lit + "/" + b + "/") == Some(Match(view, ArgOf(conv, b)))
  {
    var r := Route([Lit(lit), conv], view);
    assert r.pieces[0] == Lit(lit) && r.pieces[1] == conv;
    MatchesTwo(Lit(lit), conv, lit, b);
    ResolveAt(BlogRoutes, lit + "/" + b + "/", k);
    SplitTwo(lit, b);
    ArgsOfTwo(Lit(lit), conv, lit, b);
    assert ArgOf(Lit(lit), lit) == [];
    assert [] + ArgOf(conv, b) == ArgOf(conv, b);
  }

  /** No route before `k` takes a two-segment path `a/b/` when each two-piece route before
      `k` names another first segment or wants digits `b` lacks. */
  lemma MissBefore(a: string, b: string, k: nat)
    requires a != "" && b != "" && '/' !in a && '/' !in b && 2 <= k < |BlogRoutes|
    requires forall j :: 2 <= j < k ==>
      BlogRoutes[j].pieces[0] != Lit(a) || (BlogRoutes[j].pieces[1] == IntConv && !IsDigits(b))
    ensures forall j :: 0 <= j < k ==> !Matches(BlogRoutes[j].pieces, a + "/" + b + "/")
  {
    TwoSegmentMatches(a, b);
    forall j | 0 <= j < k ensures !Matches(BlogRoutes[j].pieces, a + "/" + b + "/") {
      if j == 0 {} else if j == 1 {} else if j == 2 {} else if j == 3 {} else if j == 4 {}
      else if j == 5 {} else if j == 6 {} else {}
    }
  }

  /** The empty path, and only it, reaches the post list. */
  lemma {:induction false} OnlyEmptyPathListsPosts(path: string)
    ensures ResolveBlog(path).Some? && ResolveBlog(path).value.view == PostList <==> path == ""
  {
    if path == "" {
      ResolveAt(BlogRoutes, path, 0);
    }
    if ResolveBlog(path).Some? && ResolveBlog(path).value.view == PostList {
      var i := ResolvedRoute(BlogRoutes, path);
      assert i == 0;
      JoinSplit(path);
    }
  }

  /** `<digits>/` is a post's detail, with the digits read as its primary key. */
  lemma DigitsReachPostDetail(d: string)
    requires IsDigits(d)
    ensures ResolveBlog(d + "/") == Some(Match(PostDetail, [IntArg(DecimalValue(d))]))
  {
    DigitsHaveNoSlash(d);
    SplitOne(d);
    assert !Matches(BlogRoutes[0].pieces, d + "/");
    ResolveAt(BlogRoutes, d + "/", 1);
    ArgsOfOne(IntConv, d);
  }

  /** `shared/<digits>/` is the share toggle: it is listed before `shared/<str:username>/`. */
  lemma SharedDigitsReachShareToggle(d: string)
    requires IsDigits(d)
    ensures ResolveBlog("shared/" + d + "/") == Some(Match(SharePost, [IntArg(DecimalValue(d))]))
  {
    DigitsHaveNoSlash(d);
    assert "shared/" + d + "/" == "shared" + "/" + d + "/";
    MissBefore("shared", d, 4);
    ResolveTwoSegments("shared", d, 4, IntConv, SharePost);
    assert ArgOf(IntConv, d) == [IntArg(DecimalValue(d))];
  }

  /** `shared/<segment>/` with a segment that is not all digits lists that user's shares. */
  lemma SharedNameReachesUserShared(u: string)
    requires u != "" && '/' !in u && !IsDigits(u)
    ensures ResolveBlog("shared/" + u + "/") == Some(Match(UserShared, [StrArg(u)]))
  {
    assert "shared/" + u + "/" == "shared" + "/" + u + "/";
    MissBefore("shared", u, 6);
    ResolveTwoSegments("shared", u, 6, StrConv, UserShared);
    assert ArgOf(StrConv, u) == [StrArg(u)];
  }

  /** Hence an all-digit username never reaches `get_user_shared`: whatever path resolves
      there carries a username that is not all digits. */
  lemma {:induction false} UserSharedNeverGetsDigits(path: string)
    requires ResolveBlog(path).Some? && ResolveBlog(path).value.view == UserShared
    ensures exists u :: ResolveBlog(path).value.args == [StrArg(u)] && !IsDigits(u)
  {
    var i := ResolvedRoute(BlogRoutes, path);
    assert i == 6;
    var segs := Split(path);
    assert |segs| == 3 && segs[2] == "" && segs[0] == "shared" && segs[1] != "";
    assert segs == [segs[0], segs[1], ""];
    assert !Matches(BlogRoutes[4].pieces, path);
    assert !IsDigits(segs[1]);
    ArgsOfTwo(Lit("shared"), StrConv, segs[0], segs[1]);
    assert ResolveBlog(path).value.args == [StrArg(segs[1])];
  }

  /** `comments/<int>/` lists (and creates) a post's comments. */
  lemma CommentsPathReachesCommentList(d: string)
    requires IsDigits(d)
    ensures ResolveBlog("comments/" + d + "/") == Some(Match(CommentList, [IntArg(DecimalValue(d))]))
  {
    DigitsHaveNoSlash(d);
    assert "comments/" + d + "/" == "comments" + "/" + d + "/";
    MissBefore("comments", d, 7);
    ResolveTwoSegments("comments", d, 7, IntConv, CommentList);
    assert ArgOf(IntConv, d) == [IntArg(DecimalValue(d))];
  }

  /** `comment/<int>/` is one comment, a different route from `comments/<int>/`. */
  lemma CommentPathReachesCommentDetail(d: string)
    requires IsDigits(d)
    ensures ResolveBlog("comment/" + d + "/") == Some(Match(CommentDetail, [IntArg(DecimalValue(d))]))
  {
    DigitsHaveNoSlash(d);
    assert "comment/" + d + "/" == "comment" + "/" + d + "/";
    MissBefore("comment", d, 8);
    ResolveTwoSegments("comment", d, 8, IntConv, CommentDetail);
    assert ArgOf(IntConv, d) == [IntArg(DecimalValue(d))];
  }
}
