/** The SQL statements of the controller, restated over in-memory tables:
    the device selection of the send action, the rows its insert loop
    writes, the queued-delivery page query of the drain, and the details
    query. */
module Queries {
  import opened Schema
  import opened Sequences

  // ---------------------------------------------------------------- send

  /** WHERE u.country_id = :countryId AND d.expired = 0, joined on u.id = d.user_id. */
  predicate IsEligible(userCountry: map<int, int>, countryId: int, d: Device)
  {
    d.userId in userCountry && userCountry[d.userId] == countryId && d.expired == 0
  }

  /** The devices the send action fans out to, in directory order. */
  function Eligible(directory: Directory, countryId: int): (r: seq<Device>)
    ensures |r| <= |directory.devices|
    ensures forall i :: 0 <= i < |r| ==> IsEligible(directory.userCountry, countryId, r[i])
  {
    var selected := Filter(directory.devices, d => IsEligible(directory.userCountry, countryId, d));
    assert forall i :: 0 <= i < |selected| ==> selected[i] in selected;
    selected
  }

  /** Only non-expired devices of users in the country are selected, all of
      them are, and each as often as it appears in the directory. */
  lemma EligibleSelectsExactly(directory: Directory, countryId: int, d: Device)
    ensures d in Eligible(directory, countryId) <==>
            d in directory.devices && d.expired == 0 &&
            d.userId in directory.userCountry && directory.userCountry[d.userId] == countryId
    ensures multiset(Eligible(directory, countryId))[d] ==
            if IsEligible(directory.userCountry, countryId, d) then multiset(directory.devices)[d] else 0
  {
    FilterCounts(directory.devices, d => IsEligible(directory.userCountry, countryId, d), d);
  }

  /** The notification_devices rows the insert loop writes for `devices`:
      the insert names notification_id and device_id only, so status takes
      the column default. */
  function FanOutRows(id: int, devices: seq<Device>): (r: seq<Delivery>)
    ensures |r| == |devices|
  {
    if devices == [] then []
    else FanOutRows(id, devices[..|devices| - 1]) + [Delivery(id, devices[|devices| - 1].id, Queued)]
  }

  /** One row per selected device, in selection order, every row for the
      new notification and Queued. */
  lemma {:induction false} FanOutRowsShape(id: int, devices: seq<Device>)
    ensures |FanOutRows(id, devices)| == |devices|
    ensures forall i :: 0 <= i < |devices| ==>
              FanOutRows(id, devices)[i] == Delivery(id, devices[i].id, Queued)
  {
    if devices != [] {
      FanOutRowsShape(id, devices[..|devices| - 1]);
    }
  }

  /** Appending fan-out rows keeps every status code among the four. */
  lemma FanOutRowsQueued(deliveries: seq<Delivery>, id: int, devices: seq<Device>)
    requires KnownStatuses(deliveries)
    ensures KnownStatuses(deliveries + FanOutRows(id, devices))
  {
    FanOutRowsShape(id, devices);
    var all := deliveries + FanOutRows(id, devices);
    forall i | 0 <= i < |all| ensures Queued <= all[i].status <= Failed {
      if i >= |deliveries| {
        assert all[i] == FanOutRows(id, devices)[i - |deliveries|];
      }
    }
  }

  /** The rows for one more device of `devices` are those so far plus one. */
  lemma FanOutRowsSnoc(id: int, devices: seq<Device>, n: nat)
    requires n < |devices|
    ensures FanOutRows(id, devices[..n + 1]) == FanOutRows(id, devices[..n]) + [Delivery(id, devices[n].id, Queued)]
  {
    assert devices[..n + 1][..n] == devices[..n];
  }

  /** The rows for a concatenation of device lists are the rows of each in
      turn, so inserting chunk after chunk writes the rows of the whole
      selection. */
  lemma {:induction false} FanOutRowsAppend(id: int, a: seq<Device>, b: seq<Device>)
    ensures FanOutRows(id, a + b) == FanOutRows(id, a) + FanOutRows(id, b)
  {
    if b == [] {
      assert a + b == a;
    } else {
      var init := b[..|b| - 1];
      assert (a + b)[..|a + b| - 1] == a + init;
      FanOutRowsAppend(id, a, init);
    }
  }

  // --------------------------------------------------------------- drain

  /** First row of the table with this primary key. */
  function FindNotification(notifications: seq<Notification>, id: int): (r: Option<Notification>)
    ensures r.Some? ==> r.value in notifications && r.value.id == id
    ensures r.None? ==> forall n :: n in notifications ==> n.id != id
  {
    if notifications == [] then None
    else if notifications[0].id == id then Some(notifications[0])
    else FindNotification(notifications[1..], id)
  }

  /** Appending a notification whose id exceeds every earlier one makes it
      the row found for that id. */
  lemma FindAppended(notifications: seq<Notification>, n: Notification)
    requires forall i :: 0 <= i < |notifications| ==> notifications[i].id < n.id
    ensures FindNotification(notifications + [n], n.id) == Some(n)
  {
  }

  function FindDevice(devices: seq<Device>, id: int): (r: Option<Device>)
    ensures r.Some? ==> r.value in devices && r.value.id == id
    ensures r.None? ==> forall d :: d in devices ==> d.id != id
  {
    if devices == [] then None
    else if devices[0].id == id then Some(devices[0])
    else FindDevice(devices[1..], id)
  }

  /** WHERE nd.status = 0, together with the two inner joins: a row whose
      notification or device is missing is not returned. */
  predicate IsDrainable(notifications: seq<Notification>, devices: seq<Device>, d: Delivery)
  {
    d.status == Queued &&
    FindNotification(notifications, d.notificationId).Some? &&
    FindDevice(devices, d.deviceId).Some?
  }

  function QueuedRows(notifications: seq<Notification>, deliveries: seq<Delivery>, devices: seq<Device>): (r: seq<Delivery>)
  {
    Filter(deliveries, d => IsDrainable(notifications, devices, d))
  }

  /** The selected columns of one joined row. */
  function JoinRow(notifications: seq<Notification>, devices: seq<Device>, d: Delivery): (c: Candidate)
    requires IsDrainable(notifications, devices, d)
  {
    var n := FindNotification(notifications, d.notificationId).value;
    Candidate(d.notificationId, n.title, n.message, FindDevice(devices, d.deviceId).value.token, n.createdAt)
  }

  function JoinRows(notifications: seq<Notification>, devices: seq<Device>, rows: seq<Delivery>): (r: seq<Candidate>)
    requires forall d :: d in rows ==> IsDrainable(notifications, devices, d)
    ensures |r| == |rows|
    ensures forall i :: 0 <= i < |r| ==> r[i] == JoinRow(notifications, devices, rows[i])
  {
    if rows == [] then [] else [JoinRow(notifications, devices, rows[0])] + JoinRows(notifications, devices, rows[1..])
  }

  /** Every queued delivery row whose joins succeed, as a candidate, in table order. */
  function QueuedCandidates(notifications: seq<Notification>, deliveries: seq<Delivery>, devices: seq<Device>): (r: seq<Candidate>)
  {
    JoinRows(notifications, devices, QueuedRows(notifications, deliveries, devices))
  }

  /** ORDER BY created_at ASC */
  predicate SortedByCreatedAt(s: seq<Candidate>)
  {
    forall i, j :: 0 <= i < j < |s| ==> s[i].createdAt <= s[j].createdAt
  }

  function InsertByCreatedAt(x: Candidate, s: seq<Candidate>): (r: seq<Candidate>)
    requires SortedByCreatedAt(s)
    ensures SortedByCreatedAt(r)
    ensures multiset(r) == multiset(s) + multiset{x}
  {
    if s == [] || x.createdAt <= s[0].createdAt then
      assert forall j :: 0 <= j < |s| ==> x.createdAt <= s[j].createdAt;
      SortedCons(x, s);
      [x] + s
    else
      var rest := InsertByCreatedAt(x, s[1..]);
      assert s == [s[0]] + s[1..];
      LowerBound(s[0].createdAt, x, s[1..], rest);
      SortedCons(s[0], rest);
      [s[0]] + rest
  }

  /** Prepending a row no later than every row keeps the order. */
  lemma SortedCons(x: Candidate, s: seq<Candidate>)
    requires SortedByCreatedAt(s)
    requires forall j :: 0 <= j < |s| ==> x.createdAt <= s[j].createdAt
    ensures SortedByCreatedAt([x] + s)
  {
    var r := [x] + s;
    forall i, j | 0 <= i < j < |r| ensures r[i].createdAt <= r[j].createdAt {
      if i > 0 {
        assert r[i] == s[i - 1] && r[j] == s[j - 1];
      } else {
        assert r[j] == s[j - 1];
      }
    }
  }

  /** A key below `x` and below all of `s` is below every element of a
      sequence with the elements of `s` and `x`. */
  lemma LowerBound(key: int, x: Candidate, s: seq<Candidate>, rest: seq<Candidate>)
    requires key <= x.createdAt
    requires forall i :: 0 <= i < |s| ==> key <= s[i].createdAt
    requires multiset(rest) == multiset(s) + multiset{x}
    ensures forall i :: 0 <= i < |rest| ==> key <= rest[i].createdAt
  {
    forall i | 0 <= i < |rest| ensures key <= rest[i].createdAt {
      assert rest[i] in multiset(rest);
      assert rest[i] == x || rest[i] in s;
    }
  }

  /** A stable sort on created_at; rows with equal keys keep table order. */
  function SortByCreatedAt(s: seq<Candidate>): (r: seq<Candidate>)
    ensures SortedByCreatedAt(r)
    ensures multiset(r) == multiset(s)
  {
    if s == [] then []
    else
      assert s == [s[0]] + s[1..];
      InsertByCreatedAt(s[0], SortByCreatedAt(s[1..]))
  }

  /** The full result of the drain query without LIMIT/OFFSET. */
  function QueuedView(notifications: seq<Notification>, deliveries: seq<Delivery>, devices: seq<Device>): (r: seq<Candidate>)
    ensures SortedByCreatedAt(r)
    ensures multiset(r) == multiset(QueuedCandidates(notifications, deliveries, devices))
  {
    SortByCreatedAt(QueuedCandidates(notifications, deliveries, devices))
  }

  /** The queue view is ordered oldest first and holds every queued,
      joinable delivery row exactly once. */
  lemma QueuedViewIsQueue(notifications: seq<Notification>, deliveries: seq<Delivery>, devices: seq<Device>)
    ensures SortedByCreatedAt(QueuedView(notifications, deliveries, devices))
    ensures multiset(QueuedView(notifications, deliveries, devices)) ==
            multiset(QueuedCandidates(notifications, deliveries, devices))
    ensures |QueuedView(notifications, deliveries, devices)| == |QueuedRows(notifications, deliveries, devices)|
    ensures forall d :: multiset(QueuedRows(notifications, deliveries, devices))[d] ==
                        (if IsDrainable(notifications, devices, d) then multiset(deliveries)[d] else 0)
  {
    forall d ensures multiset(QueuedRows(notifications, deliveries, devices))[d] ==
                        (if IsDrainable(notifications, devices, d) then multiset(deliveries)[d] else 0) {
      FilterCounts(deliveries, d => IsDrainable(notifications, devices, d), d);
    }
    var v := QueuedView(notifications, deliveries, devices);
    assert |multiset(v)| == |multiset(QueuedCandidates(notifications, deliveries, devices))|;
  }

  /** Every row of the queue view belongs to an existing notification and
      carries that notification's title and message. */
  lemma ViewCarriesNotification(notifications: seq<Notification>, deliveries: seq<Delivery>, devices: seq<Device>, c: Candidate)
    requires c in QueuedView(notifications, deliveries, devices)
    ensures FindNotification(notifications, c.notificationId).Some?
    ensures c.title == FindNotification(notifications, c.notificationId).value.title
    ensures c.message == FindNotification(notifications, c.notificationId).value.message
  {
    var rows := QueuedRows(notifications, deliveries, devices);
    var cs := QueuedCandidates(notifications, deliveries, devices);
    assert c in multiset(QueuedView(notifications, deliveries, devices));
    assert c in cs;
    var i :| 0 <= i < |cs| && cs[i] == c;
    assert rows[i] in rows;
  }

  /** LIMIT :limit OFFSET :offset over `view`. */
  function Page<T>(view: seq<T>, offset: nat, limit: nat): (r: seq<T>)
    ensures |r| <= limit
    ensures r == [] <==> limit == 0 || offset >= |view|
    ensures offset <= |view| ==> r == view[offset..Min(offset + limit, |view|)]
  {
    if offset >= |view| then [] else view[offset..Min(offset + limit, |view|)]
  }

  /** Appending a non-empty page extends the fetched prefix of the view by
      one page size. */
  lemma PageExtends<T>(view: seq<T>, offset: nat, limit: nat)
    requires Page(view, offset, limit) != []
    ensures offset < |view|
    ensures view[..Min(offset + limit, |view|)] == view[..Min(offset, |view|)] + Page(view, offset, limit)
  {
  }

  /** The first empty page ends the drain with the whole view fetched. */
  lemma PageExhausts<T>(view: seq<T>, offset: nat, limit: nat)
    requires limit > 0 && Page(view, offset, limit) == []
    ensures view[..Min(offset, |view|)] == view
  {
  }

  // ------------------------------------------------------------- details

  /** Number of rows of the notification with the given status. */
  function StatusCount(deliveries: seq<Delivery>, id: int, status: int): (c: nat)
    ensures c <= RowCount(deliveries, id)
  {
    if deliveries == [] then 0
    else (if deliveries[0].notificationId == id && deliveries[0].status == status then 1 else 0) +
         StatusCount(deliveries[1..], id, status)
  }

  /** Number of rows the details join produces for `id` (before grouping). */
  function RowCount(deliveries: seq<Delivery>, id: int): (c: nat)
  {
    if deliveries == [] then 0
    else (if deliveries[0].notificationId == id then 1 else 0) + RowCount(deliveries[1..], id)
  }

  /** The first row of the notification, whose status group the fetch returns. */
  function FirstRowOf(deliveries: seq<Delivery>, id: int): (d: Delivery)
    requires RowCount(deliveries, id) > 0
    ensures d in deliveries && d.notificationId == id
    ensures StatusCount(deliveries, id, d.status) > 0
  {
    if deliveries[0].notificationId == id then deliveries[0] else FirstRowOf(deliveries[1..], id)
  }

  /** The grouped row for status `s`: the CASE sums count only that group's rows. */
  function GroupRow(n: Notification, deliveries: seq<Delivery>, s: int): (row: DetailsRow)
  {
    var c := StatusCount(deliveries, n.id, s);
    DetailsRow(n.id, n.title, n.message,
               if s == Queued then c else 0,
               if s == InProgress then c else 0,
               if s == Sent then c else 0,
               if s == Failed then c else 0)
  }

  /** The details query as written: GROUP BY d.status yields one row per
      status present, and a single fetch returns one of them (here the group
      of the first joined row). No joined row means not found. */
  function Details(notifications: seq<Notification>, deliveries: seq<Delivery>, id: int): (r: Option<DetailsRow>)
    ensures r.None? <==> FindNotification(notifications, id).None? || RowCount(deliveries, id) == 0
    ensures r.Some? ==> (r.value.id == id &&
                         r.value.title == FindNotification(notifications, id).value.title &&
                         r.value.message == FindNotification(notifications, id).value.message)
    ensures r.Some? ==> ((r.value.inQueue == 0 || r.value.inQueue == StatusCount(deliveries, id, Queued)) &&
                        (r.value.inProgress == 0 || r.value.inProgress == StatusCount(deliveries, id, InProgress)) &&
                        (r.value.sent == 0 || r.value.sent == StatusCount(deliveries, id, Sent)) &&
                        (r.value.failed == 0 || r.value.failed == StatusCount(deliveries, id, Failed)))
    ensures r.Some? ==> NonZeroBuckets(r.value) <= 1
    ensures r.Some? ==> exists s :: StatusCount(deliveries, id, s) > 0 &&
                                    r.value == GroupRow(FindNotification(notifications, id).value, deliveries, s)
  {
    var n := FindNotification(notifications, id);
    if n.None? || RowCount(deliveries, id) == 0 then None
    else Some(GroupRow(n.value, deliveries, FirstRowOf(deliveries, id).status))
  }

  function NonZeroBuckets(row: DetailsRow): (n: nat)
  {
    (if row.inQueue > 0 then 1 else 0) + (if row.inProgress > 0 then 1 else 0) +
    (if row.sent > 0 then 1 else 0) + (if row.failed > 0 then 1 else 0)
  }

  /** The details result the API documents: all four buckets of the
      notification in one row. */
  function DetailsSummary(notifications: seq<Notification>, deliveries: seq<Delivery>, id: int): (r: Option<DetailsRow>)
    ensures r.None? <==> FindNotification(notifications, id).None? || RowCount(deliveries, id) == 0
    ensures r.Some? ==> (r.value.id == id &&
                         r.value.title == FindNotification(notifications, id).value.title &&
                         r.value.message == FindNotification(notifications, id).value.message)
    ensures r.Some? ==> (r.value.inQueue == StatusCount(deliveries, id, Queued) &&
                         r.value.inProgress == StatusCount(deliveries, id, InProgress) &&
                         r.value.sent == StatusCount(deliveries, id, Sent) &&
                         r.value.failed == StatusCount(deliveries, id, Failed))
  {
    var n := FindNotification(notifications, id);
    if n.None? || RowCount(deliveries, id) == 0 then None
    else Some(DetailsRow(id, n.value.title, n.value.message,
                         StatusCount(deliveries, id, Queued), StatusCount(deliveries, id, InProgress),
                         StatusCount(deliveries, id, Sent), StatusCount(deliveries, id, Failed)))
  }

  predicate KnownStatuses(deliveries: seq<Delivery>)
  {
    forall i :: 0 <= i < |deliveries| ==> Queued <= deliveries[i].status <= Failed
  }

  /** With every status code among 0..3, the four buckets of a notification
      add up to its number of delivery rows. */
  lemma {:induction false} BucketsCoverRows(deliveries: seq<Delivery>, id: int)
    requires KnownStatuses(deliveries)
    ensures StatusCount(deliveries, id, Queued) + StatusCount(deliveries, id, InProgress) +
            StatusCount(deliveries, id, Sent) + StatusCount(deliveries, id, Failed) == RowCount(deliveries, id)
  {
    if deliveries != [] {
      var rest := deliveries[1..];
      assert deliveries == [deliveries[0]] + rest;
      BucketsCoverRows(rest, id);
    }
  }

  /** With every status code among 0..3, a found notification's reported
      row has exactly one non-empty bucket. */
  lemma DetailsOneBucket(notifications: seq<Notification>, deliveries: seq<Delivery>, id: int)
    requires KnownStatuses(deliveries)
    requires Details(notifications, deliveries, id).Some?
    ensures NonZeroBuckets(Details(notifications, deliveries, id).value) == 1
  {
    var first := FirstRowOf(deliveries, id);
    var i :| 0 <= i < |deliveries| && deliveries[i] == first;
    assert Queued <= deliveries[i].status <= Failed;
  }

  lemma SummaryBucketsAddUp(notifications: seq<Notification>, deliveries: seq<Delivery>, id: int)
    requires KnownStatuses(deliveries)
    requires DetailsSummary(notifications, deliveries, id).Some?
    ensures var row := DetailsSummary(notifications, deliveries, id).value;
            row.inQueue + row.inProgress + row.sent + row.failed == RowCount(deliveries, id) > 0
  {
    BucketsCoverRows(deliveries, id);
  }

  /** A notification with one queued and one sent row: the as-written query
      reports a single bucket, the summary both. */
  lemma DetailsReportsOneGroup()
    ensures var ns := [Notification(1, "Hello", "World", 0)];
            var ds := [Delivery(1, 10, Queued), Delivery(1, 11, Sent)];
            Details(ns, ds, 1) == Some(DetailsRow(1, "Hello", "World", 1, 0, 0, 0)) &&
            DetailsSummary(ns, ds, 1) == Some(DetailsRow(1, "Hello", "World", 1, 0, 1, 0))
  {
    var ds := [Delivery(1, 10, Queued), Delivery(1, 11, Sent)];
    var tail := [Delivery(1, 11, Sent)];
    assert ds[1..] == tail && tail[1..] == [];
    assert tail[0].status != Queued && tail[0].status != InProgress && tail[0].status != Failed;
    assert ds[0].status != Sent && ds[0].status != InProgress && ds[0].status != Failed;
    assert RowCount(tail, 1) == 1 && StatusCount(tail, 1, Sent) == 1;
    assert StatusCount(tail, 1, Queued) == 0 && StatusCount(tail, 1, InProgress) == 0;
    assert StatusCount(tail, 1, Failed) == 0;
    assert RowCount(ds, 1) == 2;
    assert FirstRowOf(ds, 1) == ds[0];
    assert StatusCount(ds, 1, Queued) == 1;
    assert StatusCount(ds, 1, Sent) == 1;
    assert StatusCount(ds, 1, InProgress) == 0;
    assert StatusCount(ds, 1, Failed) == 0;
  }

  lemma {:induction false} CountsAppend(a: seq<Delivery>, b: seq<Delivery>, id: int, status: int)
    ensures StatusCount(a + b, id, status) == StatusCount(a, id, status) + StatusCount(b, id, status)
    ensures RowCount(a + b, id) == RowCount(a, id) + RowCount(b, id)
  {
    if a == [] {
      assert a + b == b;
    } else {
      assert (a + b)[0] == a[0] && (a + b)[1..] == a[1..] + b;
      CountsAppend(a[1..], b, id, status);
    }
  }

  /** Every delivery row points below `bound`. */
  predicate RowsBelow(deliveries: seq<Delivery>, bound: int)
  {
    forall i :: 0 <= i < |deliveries| ==> deliveries[i].notificationId < bound
  }

  /** A notification id no row points at or above has no rows. */
  lemma {:induction false} NoRowsAtOrAbove(deliveries: seq<Delivery>, id: int)
    requires RowsBelow(deliveries, id)
    ensures RowCount(deliveries, id) == 0
  {
    if deliveries != [] {
      assert RowsBelow(deliveries[1..], id) by {
        forall i | 0 <= i < |deliveries[1..]| ensures deliveries[1..][i].notificationId < id {
          assert deliveries[1..][i] == deliveries[i + 1];
        }
      }
      NoRowsAtOrAbove(deliveries[1..], id);
    }
  }

  /** Rows fanned out for id `id` on top of rows below `id` are all below
      `id + 1`. */
  lemma FanOutRowsBelow(deliveries: seq<Delivery>, id: int, devices: seq<Device>)
    requires RowsBelow(deliveries, id)
    ensures RowsBelow(deliveries + FanOutRows(id, devices), id + 1)
  {
    FanOutRowsShape(id, devices);
    var all := deliveries + FanOutRows(id, devices);
    forall i | 0 <= i < |all| ensures all[i].notificationId < id + 1 {
      if i >= |deliveries| {
        assert all[i] == FanOutRows(id, devices)[i - |deliveries|];
      }
    }
  }

  /** The rows of a fresh fan-out: one row per device, all Queued. */
  lemma {:induction false} CountsOfFanOut(id: int, devices: seq<Device>, status: int)
    ensures StatusCount(FanOutRows(id, devices), id, status) == if status == Queued then |devices| else 0
    ensures RowCount(FanOutRows(id, devices), id) == |devices|
  {
    if devices != [] {
      var init := devices[..|devices| - 1];
      var last := [Delivery(id, devices[|devices| - 1].id, Queued)];
      CountsOfFanOut(id, init, status);
      CountsAppend(FanOutRows(id, init), last, id, status);
      assert last[1..] == [];
    }
  }

  /** With no row of the notification in `a`, its first row in `a + b` is
      its first row in `b`. */
  lemma {:induction false} FirstRowAfter(a: seq<Delivery>, b: seq<Delivery>, id: int)
    requires RowCount(a, id) == 0 && RowCount(b, id) > 0
    ensures RowCount(a + b, id) > 0 && FirstRowOf(a + b, id) == FirstRowOf(b, id)
  {
    CountsAppend(a, b, id, Queued);
    if a == [] {
      assert a + b == b;
    } else {
      assert (a + b)[0] == a[0] && (a + b)[1..] == a[1..] + b;
      FirstRowAfter(a[1..], b, id);
    }
  }

  /** Details right after a send: a notification without earlier rows reports
      every new row as queued, and is not found when no device was selected.
      With one status present the single fetched group is the full summary. */
  lemma DetailsAfterSend(notifications: seq<Notification>, deliveries: seq<Delivery>, id: int, devices: seq<Device>)
    requires FindNotification(notifications, id).Some?
    requires RowCount(deliveries, id) == 0
    ensures var n := FindNotification(notifications, id).value;
            Details(notifications, deliveries + FanOutRows(id, devices), id) ==
              if devices == [] then None else Some(DetailsRow(id, n.title, n.message, |devices|, 0, 0, 0))
  {
    var rows := FanOutRows(id, devices);
    var all := deliveries + rows;
    CountsOfFanOut(id, devices, Queued);
    CountsAppend(deliveries, rows, id, Queued);
    if devices != [] {
      FirstRowAfter(deliveries, rows, id);
      var first := FirstRowOf(rows, id);
      FanOutRowsShape(id, devices);
      assert first.status == Queued;
      var n := FindNotification(notifications, id).value;
      assert n.id == id;
      assert StatusCount(all, id, Queued) == |devices|;
      assert Details(notifications, all, id) == Some(GroupRow(n, all, Queued));
    } else {
      assert RowCount(all, id) == 0;
    }
  }
}
