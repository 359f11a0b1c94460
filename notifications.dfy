/** The notification table of the backend and the notification views: listing,
    the unread count, mark-read, delete, and the bulk insert the budget alerts use. */
module Notifications {
  import opened Wrappers
  import Sorting

  datatype NotificationType = BudgetWarning | BudgetExceeded | GoalAchieved | Reminder | System

  /** The `data` JSON of a budget alert. */
  datatype AlertData = AlertData(budgetId: int, categoryId: Option<int>, spent: int, budgetAmount: int, percentage: real)

  /** A `Notification` row; `data` is `None` for the empty object; `createdAt` is in microseconds. */
  datatype Notification = Notification(
    id: int, user: int, kind: NotificationType, title: string, data: Option<AlertData>,
    isRead: bool, emailSent: bool, createdAt: int)

  /** A notification built but not yet saved: what `Notification(...)` holds before `bulk_create`. */
  datatype Draft = Draft(user: int, kind: NotificationType, title: string, data: AlertData, emailSent: bool)

  const MicrosPerDay: int := 86400000000

  /** The calendar day (ordinal) of an instant, as `created_at__date` compares it. */
  function DayOf(instant: int): int {
    instant / MicrosPerDay
  }

  /** Ids are distinct primary keys, all below the next id to hand out. */
  predicate IdsValid(rows: seq<Notification>, nextId: int) {
    (forall i, j :: 0 <= i < j < |rows| ==> rows[i].id != rows[j].id)
    && (forall i :: 0 <= i < |rows| ==> rows[i].id < nextId)
  }

  /** The rows `Notification.objects.filter(user=user)` selects, narrowed to unread rows
      when `unread == 'true'`, in table order. */
  function Matching(rows: seq<Notification>, user: int, unread: Option<string>): (r: seq<Notification>)
    ensures |r| <= |rows|
    ensures forall n :: n in r ==> n in rows && n.user == user && (unread == Some("true") ==> !n.isRead)
    ensures forall n :: n in rows && n.user == user && (unread == Some("true") ==> !n.isRead) ==> n in r
  {
    if rows == [] then []
    else
      var n := rows[|rows| - 1];
      var rest := Matching(rows[..|rows| - 1], user, unread);
      assert forall m :: m in rows ==> m in rows[..|rows| - 1] || m == n;
      rest + (if n.user == user && (unread == Some("true") ==> !n.isRead) then [n] else [])
  }

  /** The sort key of `Meta.ordering = ['-created_at']`. */
  function CreatedKey(n: Notification): real {
    n.createdAt as real
  }

  /** `NotificationListView`'s queryset: the matching rows, newest first by the model's
      default ordering; rows created at the same instant stay in table order. */
  function Listing(rows: seq<Notification>, user: int, unread: Option<string>): (r: seq<Notification>)
    ensures Sorting.SortedDesc(r, CreatedKey)
    ensures multiset(r) == multiset(Matching(rows, user, unread))
    ensures forall n :: n in r <==> n in rows && n.user == user && (unread == Some("true") ==> !n.isRead)
    ensures forall t :: Sorting.WithKey(r, CreatedKey, t) == Sorting.WithKey(Matching(rows, user, unread), CreatedKey, t)
  {
    var m := Matching(rows, user, unread);
    Sorting.SortDescCorrect(m, CreatedKey);
    Sorting.SortDescStableAll(m, CreatedKey);
    var r := Sorting.SortDesc(m, CreatedKey);
    assert forall n :: n in r <==> n in multiset(r);
    assert forall n :: n in m <==> n in multiset(m);
    r
  }

  /** The unread count of `NotificationCountView`. */
  function UnreadCount(rows: seq<Notification>, user: int): (n: nat)
    ensures n <= |rows|
  {
    if rows == [] then 0
    else UnreadCount(rows[..|rows| - 1], user) + (if rows[|rows| - 1].user == user && !rows[|rows| - 1].isRead then 1 else 0)
  }

  /** The unread count is the length of the unread listing. */
  lemma {:induction false} UnreadCountIsUnreadListing(rows: seq<Notification>, user: int)
    ensures UnreadCount(rows, user) == |Listing(rows, user, Some("true"))|
  {
    UnreadCountIsMatching(rows, user);
    var r, m := Listing(rows, user, Some("true")), Matching(rows, user, Some("true"));
    assert |multiset(r)| == |multiset(m)|;
  }

  lemma {:induction false} UnreadCountIsMatching(rows: seq<Notification>, user: int)
    ensures UnreadCount(rows, user) == |Matching(rows, user, Some("true"))|
  {
    if rows != [] {
      UnreadCountIsMatching(rows[..|rows| - 1], user);
    }
  }

  /** The row after `filter(user=user, is_read=False).update(is_read=True)`. */
  function MarkAllRow(n: Notification, user: int): Notification {
    if n.user == user && !n.isRead then n.(isRead := true) else n
  }

  /** The row after `filter(user=user, id__in=ids).update(is_read=True)`. */
  function MarkIdsRow(n: Notification, user: int, ids: seq<int>): Notification {
    if n.user == user && n.id in ids then n.(isRead := true) else n
  }

  function MarkAll(rows: seq<Notification>, user: int): (r: seq<Notification>)
    ensures |r| == |rows|
  {
    seq(|rows|, i requires 0 <= i < |rows| => MarkAllRow(rows[i], user))
  }

  function MarkIds(rows: seq<Notification>, user: int, ids: seq<int>): (r: seq<Notification>)
    ensures |r| == |rows|
  {
    seq(|rows|, i requires 0 <= i < |rows| => MarkIdsRow(rows[i], user, ids))
  }

  /** Marking all: every row of `user` ends up read, other users' rows are untouched, and
      only the read flag of a row can change. */
  lemma MarkAllEffect(rows: seq<Notification>, user: int)
    ensures var r := MarkAll(rows, user);
            (forall i :: 0 <= i < |r| && r[i].user == user ==> r[i].isRead)
            && (forall i :: 0 <= i < |r| && rows[i].user != user ==> r[i] == rows[i])
            && (forall i :: 0 <= i < |r| ==> r[i] == rows[i].(isRead := r[i].isRead))
            && UnreadCount(r, user) == 0
  {
    MarkAllLeavesNoUnread(rows, user);
  }

  lemma {:induction false} MarkAllLeavesNoUnread(rows: seq<Notification>, user: int)
    ensures UnreadCount(MarkAll(rows, user), user) == 0
  {
    if rows != [] {
      MarkAllLeavesNoUnread(rows[..|rows| - 1], user);
      assert MarkAll(rows, user)[..|rows| - 1] == MarkAll(rows[..|rows| - 1], user);
    }
  }

  /** Marking by ids: exactly the rows of `user` whose id is listed become read; every other
      row is unchanged. */
  lemma MarkIdsEffect(rows: seq<Notification>, user: int, ids: seq<int>)
    ensures var r := MarkIds(rows, user, ids);
            (forall i :: 0 <= i < |r| && rows[i].user == user && rows[i].id in ids ==> r[i] == rows[i].(isRead := true))
            && (forall i :: 0 <= i < |r| && !(rows[i].user == user && rows[i].id in ids) ==> r[i] == rows[i])
  {
  }

  /** `rows` without the row `id` of `user`. */
  function Without(rows: seq<Notification>, user: int, id: int): (r: seq<Notification>)
    ensures |r| <= |rows|
    ensures forall n :: n in r <==> n in rows && !(n.user == user && n.id == id)
  {
    if rows == [] then []
    else
      var n := rows[|rows| - 1];
      var rest := Without(rows[..|rows| - 1], user, id);
      assert forall m :: m in rows <==> m in rows[..|rows| - 1] || m == n;
      rest + (if n.user == user && n.id == id then [] else [n])
  }

  predicate Owns(rows: seq<Notification>, user: int, id: int) {
    exists i :: 0 <= i < |rows| && rows[i].user == user && rows[i].id == id
  }

  /** The new rows `bulk_create` adds: fresh ids counted up from `nextId`, all created at `now`. */
  function Stamped(drafts: seq<Draft>, nextId: int, now: int): (r: seq<Notification>)
    ensures |r| == |drafts|
    ensures forall i :: 0 <= i < |r| ==>
              r[i] == Notification(nextId + i, drafts[i].user, drafts[i].kind, drafts[i].title,
                                   Some(drafts[i].data), false, drafts[i].emailSent, now)
  {
    seq(|drafts|, i requires 0 <= i < |drafts| =>
      Notification(nextId + i, drafts[i].user, drafts[i].kind, drafts[i].title, Some(drafts[i].data), false, drafts[i].emailSent, now))
  }

  class NotificationTable {
    var rows: seq<Notification>
    var nextId: int

    ghost predicate Valid()
      reads this
    {
      IdsValid(rows, nextId)
    }

    constructor ()
      ensures Valid() && rows == [] && nextId == 1
    {
      rows := [];
      nextId := 1;
    }

    /** `NotificationMarkReadView.post`: `all` marks every unread row of the user, otherwise the
        listed ids of the user are marked; with neither the reply is 400 and nothing changes. */
    method MarkRead(user: int, markAll: bool, ids: seq<int>) returns (status: int)
      requires Valid()
      modifies this
      ensures Valid() && nextId == old(nextId)
      ensures markAll ==> status == 200 && rows == MarkAll(old(rows), user)
      ensures !markAll && ids != [] ==> status == 200 && rows == MarkIds(old(rows), user, ids)
      ensures !markAll && ids == [] ==> status == 400 && rows == old(rows)
    {
      if markAll {
        rows := MarkAll(rows, user);
        status := 200;
      } else if ids != [] {
        rows := MarkIds(rows, user, ids);
        status := 200;
      } else {
        status := 400;
      }
    }

    /** `NotificationDeleteView.delete`: removes the user's row with that id (200), or replies
        404 and changes nothing when the user has no such row. */
    method Delete(user: int, id: int) returns (status: int)
      requires Valid()
      modifies this
      ensures Valid() && nextId == old(nextId)
      ensures Owns(old(rows), user, id) ==> status == 200 && rows == Without(old(rows), user, id)
      ensures !Owns(old(rows), user, id) ==> status == 404 && rows == old(rows)
    {
      if exists i :: 0 <= i < |rows| && rows[i].user == user && rows[i].id == id {
        WithoutKeepsIds(rows, user, id, nextId);
        rows := Without(rows, user, id);
        status := 200;
      } else {
        status := 404;
      }
    }

    /** `Notification.objects.bulk_create(drafts)`, stamping each row with a fresh id and `now`. */
    method BulkCreate(drafts: seq<Draft>, now: int)
      requires Valid()
      modifies this
      ensures Valid()
      ensures rows == old(rows) + Stamped(drafts, old(nextId), now)
      ensures nextId == old(nextId) + |drafts|
    {
      var i := 0;
      while i < |drafts|
        invariant 0 <= i <= |drafts|
        invariant nextId == old(nextId) + i
        invariant rows == old(rows) + Stamped(drafts[..i], old(nextId), now)
        invariant IdsValid(rows, nextId)
      {
        var d := drafts[i];
        rows := rows + [Notification(nextId, d.user, d.kind, d.title, Some(d.data), false, d.emailSent, now)];
        nextId := nextId + 1;
        assert Stamped(drafts[..i + 1], old(nextId), now) == Stamped(drafts[..i], old(nextId), now) + [rows[|rows| - 1]];
        i := i + 1;
      }
      assert drafts[..i] == drafts;
    }
  }

  lemma {:induction false} WithoutKeepsIds(rows: seq<Notification>, user: int, id: int, nextId: int)
    requires IdsValid(rows, nextId)
    ensures IdsValid(Without(rows, user, id), nextId)
  {
    if rows != [] {
      var init := rows[..|rows| - 1];
      var n := rows[|rows| - 1];
      IdsValidInit(rows, nextId);
      WithoutKeepsIds(init, user, id, nextId);
      var rest := Without(init, user, id);
      NewestIdFresh(rows, nextId);
      assert forall i :: 0 <= i < |rest| ==> rest[i] in init;
      if !(n.user == user && n.id == id) {
        IdsValidSnoc(rest, n, nextId);
      } else {
        assert rest + [] == rest;
      }
    }
  }

  /** No older row shares the newest row's id. */
  lemma NewestIdFresh(rows: seq<Notification>, nextId: int)
    requires IdsValid(rows, nextId) && rows != []
    ensures forall m :: m in rows[..|rows| - 1] ==> m.id != rows[|rows| - 1].id
  {
    forall m | m in rows[..|rows| - 1] ensures m.id != rows[|rows| - 1].id {
      var k :| 0 <= k < |rows| - 1 && rows[..|rows| - 1][k] == m;
      assert rows[k] == m;
    }
  }

  /** Dropping the newest row keeps the ids distinct and below the counter. */
  lemma IdsValidInit(rows: seq<Notification>, nextId: int)
    requires IdsValid(rows, nextId) && rows != []
    ensures IdsValid(rows[..|rows| - 1], nextId)
  {
    var init := rows[..|rows| - 1];
    assert forall i :: 0 <= i < |init| ==> init[i] == rows[i];
  }

  /** Appending a row whose id is new and below the counter keeps the ids valid. */
  lemma IdsValidSnoc(rows: seq<Notification>, n: Notification, nextId: int)
    requires IdsValid(rows, nextId) && n.id < nextId
    requires forall i :: 0 <= i < |rows| ==> rows[i].id != n.id
    ensures IdsValid(rows + [n], nextId)
  {
    var r := rows + [n];
    assert forall i :: 0 <= i < |rows| ==> r[i] == rows[i];
    assert r[|rows|] == n;
  }
}
