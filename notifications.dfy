/** The admin notification list with its incrementally maintained unread counter. */
module Notifications {
  import opened Common

  datatype Notification = Notification(id: int, read: bool, title: string, message: string)

  /** The number of unread entries: what the counter is meant to track. */
  function CountUnread(list: seq<Notification>): (n: nat)
    ensures n <= |list|
    ensures n == 0 <==> forall i :: 0 <= i < |list| ==> list[i].read
  {
    if list == [] then 0
    else (if list[0].read then 0 else 1) + CountUnread(list[1..])
  }

  /** markAsRead on the list: the entries with the id become read, nothing else changes. */
  function MarkRead(list: seq<Notification>, id: int): (r: seq<Notification>)
    ensures |r| == |list|
    ensures forall i :: 0 <= i < |list| ==>
              r[i] == (if list[i].id == id then list[i].(read := true) else list[i])
  {
    if list == [] then []
    else [if list[0].id == id then list[0].(read := true) else list[0]] + MarkRead(list[1..], id)
  }

  function MarkAllRead(list: seq<Notification>): (r: seq<Notification>)
    ensures |r| == |list|
    ensures forall i :: 0 <= i < |list| ==> r[i] == list[i].(read := true)
  {
    if list == [] then [] else [list[0].(read := true)] + MarkAllRead(list[1..])
  }

  /** removeNotification on the list: every entry with the id goes, the rest keep their order. */
  function RemoveId(list: seq<Notification>, id: int): (r: seq<Notification>)
    ensures |r| <= |list|
    ensures forall x :: x in r <==> x in list && x.id != id
  {
    if list == [] then []
    else if list[0].id == id then RemoveId(list[1..], id)
    else [list[0]] + RemoveId(list[1..], id)
  }

  /** Removal splits over concatenation, so the entries left keep their order. */
  lemma {:induction false} RemoveIdAppend(a: seq<Notification>, b: seq<Notification>, id: int)
    ensures RemoveId(a + b, id) == RemoveId(a, id) + RemoveId(b, id)
  {
    if a == [] {
      assert a + b == b;
    } else {
      assert (a + b)[1..] == a[1..] + b;
      RemoveIdAppend(a[1..], b, id);
    }
  }

  /** Array.prototype.find by id. */
  function Find(list: seq<Notification>, id: int): (r: Option<Notification>)
    ensures r.None? <==> forall i :: 0 <= i < |list| ==> list[i].id != id
    ensures r.Some? ==> exists i :: 0 <= i < |list| && list[i] == r.value && r.value.id == id &&
                                    forall k :: 0 <= k < i ==> list[k].id != id
  {
    if list == [] then None
    else if list[0].id == id then Some(list[0])
    else
      var rest := Find(list[1..], id);
      if rest.Some? then
        ghost var i :| 0 <= i < |list[1..]| && list[1..][i] == rest.value && rest.value.id == id &&
                       forall k :: 0 <= k < i ==> list[1..][k].id != id;
        assert list[i + 1] == rest.value;
        rest
      else rest
  }

  /** The first entry with the id exists and is unread. */
  predicate FindsUnread(list: seq<Notification>, id: int)
  {
    var f := Find(list, id); f.Some? && !f.value.read
  }

  predicate UniqueIds(list: seq<Notification>)
  {
    forall i, j :: 0 <= i < j < |list| ==> list[i].id != list[j].id
  }

  /** The counter decrement floored at zero. */
  function Decrement(count: int): (r: int)
    ensures r >= 0 && (count > 0 ==> r == count - 1) && (count <= 0 ==> r == 0)
  {
    if 0 >= count - 1 then 0 else count - 1
  }

  // ---------------------------------------------------------------------
  // Lemmas about the counter invariant
  // ---------------------------------------------------------------------

  lemma {:induction false} CountUnreadAppend(a: seq<Notification>, b: seq<Notification>)
    ensures CountUnread(a + b) == CountUnread(a) + CountUnread(b)
  {
    if a == [] {
      assert a + b == b;
    } else {
      assert (a + b)[1..] == a[1..] + b;
      CountUnreadAppend(a[1..], b);
    }
  }

  /** Marking every entry read leaves none unread. */
  lemma {:induction false} MarkAllReadNoneUnread(list: seq<Notification>)
    ensures CountUnread(MarkAllRead(list)) == 0
  {
    if list != [] {
      MarkAllReadNoneUnread(list[1..]);
      assert MarkAllRead(list)[1..] == MarkAllRead(list[1..]);
    }
  }

  /** Removing an id takes away exactly the unread entries with that id. */
  lemma {:induction false} RemoveIdUnread(list: seq<Notification>, id: int)
    requires UniqueIds(list)
    ensures CountUnread(RemoveId(list, id)) == CountUnread(list) - (if FindsUnread(list, id) then 1 else 0)
  {
    if list != [] {
      assert UniqueIds(list[1..]) by {
        forall i, j | 0 <= i < j < |list[1..]|
          ensures list[1..][i].id != list[1..][j].id
        {
          assert list[1..][i] == list[i + 1] && list[1..][j] == list[j + 1];
        }
      }
      RemoveIdUnread(list[1..], id);
      if list[0].id == id {
        assert Find(list[1..], id).None? by {
          forall k | 0 <= k < |list[1..]|
            ensures list[1..][k].id != id
          {
            assert list[1..][k] == list[k + 1];
          }
        }
        RemoveAbsentId(list[1..], id);
      }
    }
  }

  lemma {:induction false} RemoveAbsentId(list: seq<Notification>, id: int)
    requires Find(list, id).None?
    ensures RemoveId(list, id) == list
  {
    if list != [] {
      assert Find(list[1..], id).None? by {
        forall k | 0 <= k < |list[1..]|
          ensures list[1..][k].id != id
        {
          assert list[1..][k] == list[k + 1];
        }
      }
      RemoveAbsentId(list[1..], id);
    }
  }

  /** Marking an id read lowers the unread count by the number of unread
      entries with that id; with unique ids that is one exactly when the
      entry was there and unread. */
  lemma {:induction false} MarkReadUnread(list: seq<Notification>, id: int)
    requires UniqueIds(list)
    ensures CountUnread(MarkRead(list, id)) == CountUnread(list) - (if FindsUnread(list, id) then 1 else 0)
  {
    if list != [] {
      assert UniqueIds(list[1..]) by {
        forall i, j | 0 <= i < j < |list[1..]|
          ensures list[1..][i].id != list[1..][j].id
        {
          assert list[1..][i] == list[i + 1] && list[1..][j] == list[j + 1];
        }
      }
      MarkReadUnread(list[1..], id);
      assert MarkRead(list, id)[1..] == MarkRead(list[1..], id);
      if list[0].id == id {
        assert Find(list[1..], id).None? by {
          forall k | 0 <= k < |list[1..]|
            ensures list[1..][k].id != id
          {
            assert list[1..][k] == list[k + 1];
          }
        }
        MarkReadAbsent(list[1..], id);
      }
    }
  }

  lemma {:induction false} MarkReadAbsent(list: seq<Notification>, id: int)
    requires Find(list, id).None?
    ensures MarkRead(list, id) == list
  {
    if list != [] {
      assert Find(list[1..], id).None? by {
        forall k | 0 <= k < |list[1..]|
          ensures list[1..][k].id != id
        {
          assert list[1..][k] == list[k + 1];
        }
      }
      MarkReadAbsent(list[1..], id);
    }
  }

  /** The hook's two state cells, updated separately on each call. */
  class NotificationStore {
    var notifications: seq<Notification>
    var unreadCount: int

    /** The invariant the counter is meant to keep. */
    predicate CountMatches()
      reads this
    {
      unreadCount == CountUnread(notifications)
    }

    constructor ()
      ensures notifications == [] && unreadCount == 0 && CountMatches()
    {
      notifications := [];
      unreadCount := 0;
    }

    /** Prepends and counts one more unread, whatever the new entry's read flag. */
    method AddNotification(n: Notification)
      modifies this
      ensures notifications == [n] + old(notifications)
      ensures unreadCount == old(unreadCount) + 1
      ensures old(unreadCount) >= 0 ==> unreadCount > 0
      ensures old(CountMatches()) && !n.read ==> CountMatches()
    {
      notifications := [n] + notifications;
      unreadCount := unreadCount + 1;
      CountUnreadAppend([n], old(notifications));
    }

    /** Marks the entries with the id read and decrements the counter, floored
        at zero, whether or not an unread entry was marked. */
    method MarkAsRead(id: int)
      modifies this
      ensures notifications == MarkRead(old(notifications), id)
      ensures unreadCount == Decrement(old(unreadCount))
      ensures unreadCount >= 0
      ensures (old(CountMatches()) && UniqueIds(old(notifications)) && FindsUnread(old(notifications), id))
              ==> CountMatches()
    {
      if UniqueIds(notifications) {
        MarkReadUnread(notifications, id);
      }
      notifications := MarkRead(notifications, id);
      unreadCount := if 0 >= unreadCount - 1 then 0 else unreadCount - 1;
    }

    method MarkAllAsRead()
      modifies this
      ensures notifications == MarkAllRead(old(notifications))
      ensures unreadCount == 0 && CountMatches()
    {
      notifications := MarkAllRead(notifications);
      unreadCount := 0;
      MarkAllReadNoneUnread(old(notifications));
    }

    /** Deletes every entry with the id; the counter drops only when the first
        such entry was unread. */
    method RemoveNotification(id: int)
      modifies this
      ensures notifications == RemoveId(old(notifications), id)
      ensures unreadCount == if FindsUnread(old(notifications), id) then Decrement(old(unreadCount)) else old(unreadCount)
      ensures old(unreadCount) >= 0 ==> unreadCount >= 0
      ensures old(CountMatches()) && UniqueIds(old(notifications)) ==> CountMatches()
    {
      var found := Find(notifications, id);
      if found.Some? && !found.value.read {
        assert FindsUnread(notifications, id);
        unreadCount := if 0 >= unreadCount - 1 then 0 else unreadCount - 1;
      }
      if UniqueIds(notifications) {
        RemoveIdUnread(notifications, id);
      }
      notifications := RemoveId(notifications, id);
    }
  }

  /** markAsRead on an already-read entry breaks the invariant: one unread
      entry, one read entry, counter 1; marking the read one drops the counter to 0. */
  lemma MarkAsReadOnReadIdDiverges()
    ensures var list := [Notification(1, false, "", ""), Notification(2, true, "", "")];
      && CountUnread(list) == 1
      && CountUnread(MarkRead(list, 2)) == 1
      && Decrement(1) == 0
  {
    var list := [Notification(1, false, "", ""), Notification(2, true, "", "")];
    assert list[1..] == [Notification(2, true, "", "")];
    assert MarkRead(list, 2) == list;
  }
}
