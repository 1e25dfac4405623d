/** The like and share icons under a post (frontend/src/components/Like.jsx and
    Shared.jsx): whether they are highlighted for the stored user, and what a click does. */
module PostReactions {
  import opened Wrappers
  import opened Strings
  import opened UserModels
  import opened BlogModels
  import opened Database
  import opened BlogSerializers

  /** The number JavaScript's `==` compares a numeric id with, for a string of ASCII
      digits: the empty string reads as 0, leading zeros are ignored. Any other string is
      `None` (see README). */
  function JsNumber(s: string): (r: Option<nat>)
    ensures s == "" ==> r == Some(0)
    ensures IsDigits(s) ==> r == Some(DecimalValue(s))
    ensures (exists i :: 0 <= i < |s| && !IsDigit(s[i])) ==> r.None?
  {
    if forall i :: 0 <= i < |s| ==> IsDigit(s[i]) then Some(DecimalValue(s)) else None
  }

  /** `key == user` for a numeric id `key` and the stored `user_id`: never for a missing
      one (`null`), otherwise by the string's number. */
  predicate LooseEquals(key: UserId, user: Option<string>) {
    user.Some? && JsNumber(user.value) == Some(key)
  }

  /** `found`: the stored user is among the post's `liked` (or `shared`) ids. */
  predicate Found(ids: set<UserId>, user: Option<string>) {
    exists key :: key in ids && LooseEquals(key, user)
  }

  /** `found` needs only one lookup: the number of the stored string. */
  lemma FoundByNumber(ids: set<UserId>, user: Option<string>)
    ensures Found(ids, user) <==> user.Some? && JsNumber(user.value).Some? && JsNumber(user.value).value in ids
  {
    if user.Some? && JsNumber(user.value).Some? && JsNumber(user.value).value in ids {
      assert LooseEquals(JsNumber(user.value).value, user);
    }
  }

  /** With the id stored at sign-in, the numeral of the user's own id, `found` holds iff
      the user is in the set. */
  lemma FoundStoredId(ids: set<UserId>, me: UserId)
    ensures Found(ids, Some(NatToString(me))) <==> me in ids
  {
    DecimalRoundTrip(me);
    FoundByNumber(ids, Some(NatToString(me)));
  }

  /** Loose equality ignores leading zeros and reads an empty stored id as 0. */
  lemma LooseEqualityEdges()
    ensures Found({5}, Some("05"))
    ensures Found({0}, Some(""))
    ensures !Found({5}, Some("5a"))
    ensures !Found({0}, None)
  {
    assert LooseEquals(5, Some("05")) by {
      assert "05"[..1] == "0";
      assert DecimalValue("0") == 0 by { assert "0"[..0] == ""; }
    }
    assert LooseEquals(0, Some(""));
    FoundByNumber({5}, Some("5a"));
    assert !IsDigit("5a"[1]);
  }

  datatype Colour = Red | Green | White

  /** JavaScript truthiness of the `iliked`/`ishared` field: absent (`None`) or `false`
      is falsy. */
  predicate Truthy(flag: Option<bool>) {
    flag == Some(true)
  }

  /** The heart's colour: `p.iliked || found`. */
  function HeartColour(iliked: Option<bool>, found: bool): (c: Colour)
    ensures c != Green
    ensures c == Red <==> Truthy(iliked) || found
  {
    if Truthy(iliked) || found then Red else White
  }

  /** The share icon's colour: `p.ishared || found`. */
  function RetweetColour(ishared: Option<bool>, found: bool): (c: Colour)
    ensures c != Red
    ensures c == Green <==> Truthy(ishared) || found
  {
    if Truthy(ishared) || found then Green else White
  }

  /** With no stored user, only the serializer's flag lights the icons. */
  lemma NoStoredUserOnlyFlag(ids: set<UserId>, flag: Option<bool>)
    ensures HeartColour(flag, Found(ids, None)) == Red <==> Truthy(flag)
    ensures RetweetColour(flag, Found(ids, None)) == Green <==> Truthy(flag)
  {
  }

  /** End to end: for a post serialized for `me` (with the flags) or without the flags, and
      the signed-in user's stored id, the heart is red iff `me` likes the post and the
      share icon is green iff `me` shared it. */
  lemma HighlightMatchesTables(t: Tables, p: Post, author: User, me: UserId, media: string -> string, absolute: string -> string,
                                withFlags: bool)
    requires author.id == p.author
    ensures var o := if withFlags then PostOutFor(t, p, author, me, media, absolute) else MyPostOut(t, p, author, media);
      && (HeartColour(o.iliked, Found(o.liked, Some(NatToString(me)))) == Red <==> (me, p.id) in t.liked)
      && (RetweetColour(o.ishared, Found(o.shared, Some(NatToString(me)))) == Green <==> (me, p.id) in t.shared)
  {
    var o := if withFlags then PostOutFor(t, p, author, me, media, absolute) else MyPostOut(t, p, author, media);
    FoundStoredId(o.liked, me);
    FoundStoredId(o.shared, me);
  }

  datatype Reaction = Like | Share

  /** One reaction icon: a click only calls the mutation with the post's id. */
  class ReactionIcon {
    const reaction: Reaction
    const post: PostId
    /** The post ids handed to `like` (or `shared`). */
    var sent: seq<PostId>
    var invalidated: seq<string>
    var toasts: seq<string>

    constructor (r: Reaction, p: PostId)
      ensures reaction == r && post == p && sent == [] && invalidated == [] && toasts == []
    {
      reaction, post, sent, invalidated, toasts := r, p, [], [], [];
    }

    method Click()
      modifies this
      ensures sent == old(sent) + [post]
      ensures invalidated == old(invalidated) && toasts == old(toasts)
    {
      sent := sent + [post];
    }

    /** The mutation settles: `error` is the failure's message, `None` on success. Only
        success invalidates the posts; a failure toasts its message. */
    method Settle(error: Option<string>)
      modifies this
      ensures error.None? ==> invalidated == old(invalidated) + ["posts"] && toasts == old(toasts)
      ensures error.Some? ==> invalidated == old(invalidated) && toasts == old(toasts) + [error.value]
      ensures sent == old(sent)
    {
      if error.None? {
        invalidated := invalidated + ["posts"];
      } else {
        toasts := toasts + [error.value];
      }
    }
  }
}
