/** The notifications page (`pages/Notifications.jsx`): the list filter, and the local
    list updates that follow a mark-read or delete call once the server accepts it. */
module NotificationsPage {
  import opened Wrappers
  import ClientLedger

  /** A notification as the list endpoint returns it. */
  datatype Item = Item(id: nat, notificationType: string, title: string, message: string, isRead: bool)

  /** The body of the mark-read call: some ids, or all. */
  datatype MarkRead = MarkIds(ids: seq<nat>) | MarkAll

  /** `unreadCount`. */
  function UnreadCount(ns: seq<Item>): (c: nat)
    ensures c <= |ns|
  {
    if ns == [] then 0 else UnreadCount(ns[..|ns| - 1]) + (if ns[|ns| - 1].isRead then 0 else 1)
  }

  /** How many unread entries carry `id`. */
  function UnreadWithId(ns: seq<Item>, id: nat): nat {
    if ns == [] then 0
    else UnreadWithId(ns[..|ns| - 1], id) + (if !ns[|ns| - 1].isRead && ns[|ns| - 1].id == id then 1 else 0)
  }

  /** How many entries carry `id`. */
  function WithId(ns: seq<Item>, id: nat): nat {
    if ns == [] then 0 else WithId(ns[..|ns| - 1], id) + (if ns[|ns| - 1].id == id then 1 else 0)
  }

  /** The list after marking `id` read: that entry read, everything else as it was. */
  function MarkedRead(ns: seq<Item>, id: nat): (r: seq<Item>)
    ensures |r| == |ns|
    ensures forall i :: 0 <= i < |ns| && ns[i].id == id ==> r[i] == ns[i].(isRead := true)
    ensures forall i :: 0 <= i < |ns| && ns[i].id != id ==> r[i] == ns[i]
  {
    if ns == [] then []
    else
      var last := ns[|ns| - 1];
      MarkedRead(ns[..|ns| - 1], id) + [if last.id == id then last.(isRead := true) else last]
  }

  /** The list after marking everything read. */
  function AllRead(ns: seq<Item>): (r: seq<Item>)
    ensures |r| == |ns|
    ensures forall i :: 0 <= i < |ns| ==> r[i] == ns[i].(isRead := true)
  {
    if ns == [] then [] else AllRead(ns[..|ns| - 1]) + [ns[|ns| - 1].(isRead := true)]
  }

  /** The list after deleting `id`: the other entries, in their order. */
  function Deleted(ns: seq<Item>, id: nat): (r: seq<Item>)
    ensures ClientLedger.Subsequence(r, ns)
    ensures forall i :: 0 <= i < |r| ==> r[i].id != id
    ensures forall n :: n in ns && n.id != id ==> n in r
  {
    if ns == [] then []
    else if ns[0].id == id then Deleted(ns[1..], id)
    else [ns[0]] + Deleted(ns[1..], id)
  }

  /** Marking one id read lowers the unread count by that id's unread entries; with
      unique ids, by one when it was unread. */
  lemma {:induction false} MarkedReadCount(ns: seq<Item>, id: nat)
    ensures UnreadCount(MarkedRead(ns, id)) == UnreadCount(ns) - UnreadWithId(ns, id)
  {
    if ns != [] {
      var r := MarkedRead(ns, id);
      assert r[..|r| - 1] == MarkedRead(ns[..|ns| - 1], id);
      MarkedReadCount(ns[..|ns| - 1], id);
    }
  }

  /** After mark-all nothing is unread. */
  lemma {:induction false} AllReadCount(ns: seq<Item>)
    ensures UnreadCount(AllRead(ns)) == 0
  {
    if ns != [] {
      var r := AllRead(ns);
      assert r[..|r| - 1] == AllRead(ns[..|ns| - 1]);
      AllReadCount(ns[..|ns| - 1]);
    }
  }

  /** Deleting removes exactly the entries with that id. */
  lemma {:induction false} DeletedCount(ns: seq<Item>, id: nat)
    ensures |Deleted(ns, id)| == |ns| - WithId(ns, id)
  {
    if ns != [] {
      DeletedCount(ns[1..], id);
      WithIdFront(ns, id);
    }
  }

  /** Counting from the front. */
  lemma {:induction false} WithIdFront(ns: seq<Item>, id: nat)
    requires ns != []
    ensures WithId(ns, id) == (if ns[0].id == id then 1 else 0) + WithId(ns[1..], id)
  {
    if |ns| > 1 {
      assert ns[1..][..|ns[1..]| - 1] == ns[..|ns| - 1][1..];
      WithIdFront(ns[..|ns| - 1], id);
    }
  }

  /** The `filter` state's request parameters. */
  function FilterParams(filter: string): (p: map<string, string>)
    ensures filter == "unread" ==> p == map["unread" := "true"]
    ensures filter != "unread" ==> p == map[]
  {
    if filter == "unread" then map["unread" := "true"] else map[]
  }

  class NotificationsView {
    var notifications: seq<Item>
    var filter: string

    constructor()
      ensures notifications == [] && filter == "all"
    {
      notifications := [];
      filter := "all";
    }

    /** `handleMarkAsRead`: asks for that one id; the list changes only if the call
        succeeds (`ok`). */
    method HandleMarkAsRead(id: nat, ok: bool) returns (request: MarkRead)
      modifies this
      ensures request == MarkIds([id]) && filter == old(filter)
      ensures ok ==> notifications == MarkedRead(old(notifications), id)
      ensures !ok ==> notifications == old(notifications)
    {
      request := MarkIds([id]);
      if ok {
        notifications := MarkedRead(notifications, id);
      }
    }

    /** `handleMarkAllAsRead`. */
    method HandleMarkAllAsRead(ok: bool) returns (request: MarkRead)
      modifies this
      ensures request == MarkAll && filter == old(filter)
      ensures ok ==> notifications == AllRead(old(notifications)) && UnreadCount(notifications) == 0
      ensures !ok ==> notifications == old(notifications)
    {
      request := MarkAll;
      if ok {
        notifications := AllRead(notifications);
        AllReadCount(old(notifications));
      }
    }

    /** `handleDelete`. */
    method HandleDelete(id: nat, ok: bool)
      modifies this
      ensures filter == old(filter)
      ensures ok ==> notifications == Deleted(old(notifications), id)
      ensures !ok ==> notifications == old(notifications)
    {
      if ok {
        notifications := Deleted(notifications, id);
      }
    }
  }
}
