/** Django's URL resolution for the `path()` patterns the apps use: each pattern is a list
    of `/`-terminated pieces (a literal, `<int:...>` or `<str:...>`), matched against the
    whole remaining path, and the first pattern in list order that matches wins. */
module Routing {
  import opened Wrappers
  import opened Strings

  /** One `/`-terminated piece of a pattern. `<int:x>` is the regular expression `[0-9]+`,
      `<str:x>` is `[^/]+`. */
  datatype Piece = Lit(text: string) | IntConv | StrConv

  /** A converted keyword argument handed to the view. */
  datatype Arg = IntArg(n: nat) | StrArg(s: string)

  datatype Route<V> = Route(pieces: seq<Piece>, view: V)

  /** A resolved request: the view and its arguments in pattern order. */
  datatype Match<V> = Match(view: V, args: seq<Arg>)

  predicate PieceMatches(p: Piece, seg: string) {
    match p
    case Lit(t) => seg == t
    case IntConv => IsDigits(seg)
    case StrConv => seg != ""
  }

  /** `path` (the URL path after the app's prefix, without the query string) matches the
      pattern: one segment per piece, each followed by `/`, and nothing after the last. */
  predicate Matches(pieces: seq<Piece>, path: string) {
    var segs := Split(path);
    && |segs| == |pieces| + 1
    && segs[|pieces|] == ""
    && forall i :: 0 <= i < |pieces| ==> PieceMatches(pieces[i], segs[i])
  }

  /** The argument one piece contributes. */
  function ArgOf(p: Piece, seg: string): seq<Arg> {
    match p
    case Lit(_) => []
    case IntConv => if IsDigits(seg) then [IntArg(DecimalValue(seg))] else []
    case StrConv => [StrArg(seg)]
  }

  /** The converted values of the converter pieces, in order. */
  function ArgsOf(pieces: seq<Piece>, segs: seq<string>): seq<Arg>
    requires |segs| >= |pieces|
  {
    if pieces == [] then [] else ArgOf(pieces[0], segs[0]) + ArgsOf(pieces[1..], segs[1..])
  }

  lemma ArgsOfOne(p: Piece, a: string)
    ensures ArgsOf([p], [a, ""]) == ArgOf(p, a)
  {
    assert [p][1..] == [];
  }

  lemma ArgsOfTwo(p: Piece, q: Piece, a: string, b: string)
    ensures ArgsOf([p, q], [a, b, ""]) == ArgOf(p, a) + ArgOf(q, b)
  {
    assert [p, q][1..] == [q];
    assert [a, b, ""][1..] == [b, ""];
    ArgsOfOne(q, b);
  }

  /** The index of the first route that matches `path`. */
  function FirstMatch<V>(routes: seq<Route<V>>, path: string): (r: Option<nat>)
    ensures r.Some? ==> r.value < |routes| && Matches(routes[r.value].pieces, path)
    ensures r.Some? ==> forall j :: 0 <= j < r.value ==> !Matches(routes[j].pieces, path)
    ensures r.None? ==> forall j :: 0 <= j < |routes| ==> !Matches(routes[j].pieces, path)
  {
    if routes == [] then None
    else if Matches(routes[0].pieces, path) then Some(0)
    else match FirstMatch(routes[1..], path)
      case None => None
      case Some(k) => Some(k + 1)
  }

  /** Django's resolver over an ordered `urlpatterns` list. */
  function Resolve<V>(routes: seq<Route<V>>, path: string): Option<Match<V>> {
    match FirstMatch(routes, path)
    case None => None
    case Some(i) => Some(Match(routes[i].view, ArgsOf(routes[i].pieces, Split(path))))
  }

  /** A route that matches when none before it does is the one that resolves. */
  lemma ResolveAt<V>(routes: seq<Route<V>>, path: string, i: nat)
    requires i < |routes| && Matches(routes[i].pieces, path)
    requires forall j :: 0 <= j < i ==> !Matches(routes[j].pieces, path)
    ensures Resolve(routes, path) == Some(Match(routes[i].view, ArgsOf(routes[i].pieces, Split(path))))
  {
  }

  /** A resolution names the first matching route: no earlier route matches. */
  lemma ResolvedRoute<V>(routes: seq<Route<V>>, path: string) returns (i: nat)
    requires Resolve(routes, path).Some?
    ensures i < |routes| && Matches(routes[i].pieces, path)
    ensures forall j :: 0 <= j < i ==> !Matches(routes[j].pieces, path)
    ensures Resolve(routes, path) == Some(Match(routes[i].view, ArgsOf(routes[i].pieces, Split(path))))
  {
    i := FirstMatch(routes, path).value;
  }

  /** The segments of a one-segment path. */
  lemma SplitOne(a: string)
    requires '/' !in a
    ensures Split(a + "/") == [a, ""]
  {
    SplitAfterSegment(a, "");
    assert a + "/" + "" == a + "/";
  }

  /** A one-segment path matches a one-piece pattern exactly when the piece accepts it. */
  lemma MatchesOne(p: Piece, a: string)
    requires '/' !in a
    ensures Matches([p], a + "/") <==> PieceMatches(p, a)
  {
    SplitOne(a);
    var segs := Split(a + "/");
    if Matches([p], a + "/") {
      assert PieceMatches([p][0], segs[0]);
    }
    if PieceMatches(p, a) {
      forall i | 0 <= i < 1 ensures PieceMatches([p][i], segs[i]) {
        assert i == 0;
      }
    }
  }

  /** A two-segment path matches a two-piece pattern exactly when each piece accepts its segment. */
  lemma MatchesTwo(p: Piece, q: Piece, a: string, b: string)
    requires '/' !in a && '/' !in b
    ensures Matches([p, q], a + "/" + b + "/") <==> PieceMatches(p, a) && PieceMatches(q, b)
  {
    SplitTwo(a, b);
    var segs := Split(a + "/" + b + "/");
    if Matches([p, q], a + "/" + b + "/") {
      assert PieceMatches([p, q][0], segs[0]);
      assert PieceMatches([p, q][1], segs[1]);
    }
    if PieceMatches(p, a) && PieceMatches(q, b) {
      forall i | 0 <= i < 2 ensures PieceMatches([p, q][i], segs[i]) {
        assert i == 0 || i == 1;
      }
    }
  }

  /** The segments of a two-segment path. */
  lemma SplitTwo(a: string, b: string)
    requires '/' !in a && '/' !in b
    ensures Split(a + "/" + b + "/") == [a, b, ""]
  {
    SplitOne(b);
    SplitAfterSegment(a, b + "/");
    assert a + "/" + b + "/" == a + "/" + (b + "/");
  }
}
