/** The noti app's views (noti/views.py): the requester's read and unread notifications and
    marking them all read. */
module NotiViews {
  import opened Seqs
  import opened Ordered
  import opened NotiModels
  import opened UserModels
  import opened Database

  /** The body of `noti_read`'s response, `{'message': 'Leido'}`. */
  const ReadMessage := "Leido"

  function ReadBy(me: UserId): Noti -> bool {
    (n: Noti) => n.toUser == me && n.isRead
  }

  function UnreadBy(me: UserId): Noti -> bool {
    (n: Noti) => n.toUser == me && !n.isRead
  }

  function AddressedTo(me: UserId): Noti -> bool {
    (n: Noti) => n.toUser == me
  }

  /** `noti`: the requester's read notifications, newest first. */
  function ReadNotis(t: Tables, me: UserId): (r: seq<Noti>)
    ensures forall n :: n in r <==> n in t.notis && n.toUser == me && n.isRead
  {
    Filter(t.notis, ReadBy(me))
  }

  /** `noti_no_l`: the requester's unread notifications, newest first. */
  function UnreadNotis(t: Tables, me: UserId): (r: seq<Noti>)
    ensures forall n :: n in r <==> n in t.notis && n.toUser == me && !n.isRead
  {
    Filter(t.notis, UnreadBy(me))
  }

  /** The two lists split the requester's notifications: each one is in exactly one list,
      and together they are as many as there are. */
  lemma ReadUnreadPartition(t: Tables, me: UserId)
    ensures |ReadNotis(t, me)| + |UnreadNotis(t, me)| == |Filter(t.notis, AddressedTo(me))|
    ensures forall n :: n in t.notis && n.toUser == me ==> (n in ReadNotis(t, me) <==> n !in UnreadNotis(t, me))
  {
    var mine := Filter(t.notis, AddressedTo(me));
    FilterFilter(t.notis, AddressedTo(me), (n: Noti) => n.isRead, ReadBy(me));
    FilterFilter(t.notis, AddressedTo(me), (n: Noti) => !n.isRead, UnreadBy(me));
    FilterSplits(mine, (n: Noti) => n.isRead, (n: Noti) => !n.isRead);
  }

  /** The notification `noti_read` saves for the one it is given. */
  function MarkRead(me: UserId, n: Noti): Noti {
    if n.toUser == me && !n.isRead then n.(isRead := true) else n
  }

  /** The notification table after `noti_read`: each of the requester's unread rows, in place,
      with `is_read` set. */
  function MarkedRead(s: seq<Noti>, me: UserId): (r: seq<Noti>)
    ensures |r| == |s|
    ensures forall i :: 0 <= i < |s| ==> r[i] == MarkRead(me, s[i])
  {
    seq(|s|, i requires 0 <= i < |s| => MarkRead(me, s[i]))
  }

  /** After marking, the requester has no unread notification, and has read every one they
      have. */
  lemma NothingUnreadAfterMarking(t: Tables, me: UserId)
    ensures UnreadNotis(t.(notis := MarkedRead(t.notis, me)), me) == []
    ensures |ReadNotis(t.(notis := MarkedRead(t.notis, me)), me)| == |Filter(t.notis, AddressedTo(me))|
  {
    var t' := t.(notis := MarkedRead(t.notis, me));
    FilterKeepsNone(t'.notis, UnreadBy(me));
    ReadUnreadPartition(t', me);
    MarkKeepsAddressees(t.notis, me);
  }

  /** Marking keeps who each notification is for. */
  lemma {:induction false} MarkKeepsAddressees(s: seq<Noti>, me: UserId)
    ensures |Filter(MarkedRead(s, me), AddressedTo(me))| == |Filter(s, AddressedTo(me))|
  {
    if s != [] {
      MarkKeepsAddressees(s[1..], me);
      assert MarkedRead(s, me)[1..] == MarkedRead(s[1..], me);
    }
  }

  /** Marking changes only `is_read`, only on the requester's unread rows, and only to read. */
  lemma MarkChangesOnlyIsRead(s: seq<Noti>, me: UserId)
    ensures forall i :: 0 <= i < |s| ==> MarkedRead(s, me)[i].(isRead := s[i].isRead) == s[i]
    ensures forall i :: 0 <= i < |s| && (s[i].toUser != me || s[i].isRead) ==> MarkedRead(s, me)[i] == s[i]
    ensures forall i :: 0 <= i < |s| && s[i].toUser == me ==> MarkedRead(s, me)[i].isRead
  {
  }

  /** Marking twice is marking once. */
  lemma MarkIdempotent(s: seq<Noti>, me: UserId)
    ensures MarkedRead(MarkedRead(s, me), me) == MarkedRead(s, me)
  {
  }

  /** Marking keeps the database valid. */
  lemma MarkValid(t: Tables, me: UserId)
    requires Valid(t)
    ensures Valid(t.(notis := MarkedRead(t.notis, me)))
  {
    MarkKeepsOrder(t.notis, me);
    MarkKeepsReferences(t, me);
  }

  lemma MarkKeepsOrder(notis: seq<Noti>, me: UserId)
    requires NewestFirst(notis, NotiTime)
    ensures NewestFirst(MarkedRead(notis, me), NotiTime)
  {
    var marked := MarkedRead(notis, me);
    forall i, j | 0 <= i < j < |marked| ensures Newer(NotiTime)(marked[i], marked[j]) {
      assert Newer(NotiTime)(notis[i], notis[j]);
      assert NotiTime(marked[i]) == NotiTime(notis[i]) && NotiTime(marked[j]) == NotiTime(notis[j]);
    }
  }

  lemma MarkKeepsReferences(t: Tables, me: UserId)
    requires References(t)
    ensures References(t.(notis := MarkedRead(t.notis, me)))
  {
    var t' := t.(notis := MarkedRead(t.notis, me));
    forall n | n in t'.notis ensures NotiReferences(t', n) {
      var i :| 0 <= i < |t'.notis| && t'.notis[i] == n;
      assert t.notis[i] in t.notis;
      assert NotiReferences(t, t.notis[i]);
    }
  }

  /** `noti_read` as the server runs it: each of the requester's unread notifications is
      updated and saved in turn. */
  method NotiRead(db: Db, me: UserId) returns (message: string)
    modifies db
    ensures db.tables == old(db.tables).(notis := MarkedRead(old(db.tables).notis, me))
    ensures message == ReadMessage
    ensures Valid(old(db.tables)) ==> Valid(db.tables)
  {
    if Valid(db.tables) {
      MarkValid(db.tables, me);
    }
    var before := db.tables.notis;
    var i := 0;
    while i < |db.tables.notis|
      invariant 0 <= i <= |before| == |db.tables.notis|
      invariant db.tables == old(db.tables).(notis := db.tables.notis)
      invariant forall k :: 0 <= k < i ==> db.tables.notis[k] == MarkRead(me, before[k])
      invariant forall k :: i <= k < |before| ==> db.tables.notis[k] == before[k]
      decreases |db.tables.notis| - i
    {
      var n := db.tables.notis[i];
      if n.toUser == me && !n.isRead {
        db.tables := db.tables.(notis := db.tables.notis[i := n.(isRead := true)]);
      }
      i := i + 1;
    }
    assert db.tables.notis == MarkedRead(before, me);
    return ReadMessage;
  }
}
