/** The controller's state and its three state-reading or state-changing
    actions: the send action (fan-out), the queued-delivery drain and the
    cron run. The store holds the two tables the controller owns; the devices
    and users tables belong to the device directory and are passed in. */
module NotificationStore {
  import opened Schema
  import opened Sequences
  import opened Queries
  import opened Aggregation

  /** The first `n` delivery inserts succeed. */
  predicate InsertsSucceed(n: nat, insertOk: nat -> bool)
  {
    forall m :: 0 <= m < n ==> insertOk(m)
  }

  /** `title` and `message` are those of the notification row with this id. */
  predicate HasContentOf(notifications: seq<Notification>, id: int, title: string, message: string)
  {
    FindNotification(notifications, id).Some? &&
    title == FindNotification(notifications, id).value.title &&
    message == FindNotification(notifications, id).value.message
  }

  /** Ids are positive, increasing in table order and below the counter;
      every delivery row points below the counter; every status is one of
      the four codes. */
  predicate StoreValid(notifications: seq<Notification>, deliveries: seq<Delivery>, nextId: int)
  {
    nextId >= 1 &&
    (forall i :: 0 <= i < |notifications| ==> 1 <= notifications[i].id < nextId) &&
    (forall i, j :: 0 <= i < j < |notifications| ==> notifications[i].id < notifications[j].id) &&
    RowsBelow(deliveries, nextId) &&
    KnownStatuses(deliveries)
  }

  /** Inserting a notification row with the counter's id and advancing the
      counter keeps the invariant. */
  lemma NotificationKeepsValid(notifications: seq<Notification>, deliveries: seq<Delivery>, n: Notification)
    requires StoreValid(notifications, deliveries, n.id)
    ensures StoreValid(notifications + [n], deliveries, n.id + 1)
  {
  }

  /** Advancing the counter alone, as a rolled-back insert does, keeps the
      invariant. */
  lemma CounterKeepsValid(notifications: seq<Notification>, deliveries: seq<Delivery>, nextId: int)
    requires StoreValid(notifications, deliveries, nextId)
    ensures StoreValid(notifications, deliveries, nextId + 1)
  {
  }

  /** Fanning out the rows of a notification below the counter keeps the
      invariant. */
  lemma FanOutKeepsValid(notifications: seq<Notification>, deliveries: seq<Delivery>, nextId: int,
                         id: int, devices: seq<Device>)
    requires StoreValid(notifications, deliveries, nextId) && id < nextId
    requires RowsBelow(deliveries, id)
    ensures StoreValid(notifications, deliveries + FanOutRows(id, devices), nextId)
  {
    FanOutRowsQueued(deliveries, id, devices);
    FanOutRowsBelow(deliveries, id, devices);
    var all := deliveries + FanOutRows(id, devices);
    assert forall i :: 0 <= i < |all| ==> all[i].notificationId < id + 1;
  }

  /** Details of a notification just appended, with an id above every earlier
      notification and delivery row, right after its fan-out. */
  lemma CreatedReportsQueued(notifications: seq<Notification>, deliveries: seq<Delivery>,
                             n: Notification, devices: seq<Device>)
    requires forall i :: 0 <= i < |notifications| ==> notifications[i].id < n.id
    requires RowsBelow(deliveries, n.id)
    ensures Details(notifications + [n], deliveries + FanOutRows(n.id, devices), n.id) ==
              if devices == [] then None else Some(DetailsRow(n.id, n.title, n.message, |devices|, 0, 0, 0))
  {
    FindAppended(notifications, n);
    NoRowsAtOrAbove(deliveries, n.id);
    DetailsAfterSend(notifications + [n], deliveries, n.id, devices);
  }

  class Store {
    var notifications: seq<Notification>
    var deliveries: seq<Delivery>
    /** The next value of the push_notifications auto-increment id. */
    var nextId: int

    /** The store's tables and counter keep the store invariant. */
    ghost predicate Valid()
      reads this
    {
      StoreValid(notifications, deliveries, nextId)
    }

    /** What the details query reports about a store in this state: a found
        notification was created by the store and shows exactly one non-empty
        bucket, and the four buckets of the summary add up to its rows. */
    lemma DetailsOfStore(id: int)
      requires Valid()
      ensures Details(notifications, deliveries, id).Some? ==>
                1 <= id < nextId && NonZeroBuckets(Details(notifications, deliveries, id).value) == 1
      ensures DetailsSummary(notifications, deliveries, id).Some? ==>
                var row := DetailsSummary(notifications, deliveries, id).value;
                row.inQueue + row.inProgress + row.sent + row.failed == RowCount(deliveries, id) > 0
    {
      if Details(notifications, deliveries, id).Some? {
        DetailsOneBucket(notifications, deliveries, id);
        var n := FindNotification(notifications, id).value;
        var i :| 0 <= i < |notifications| && notifications[i] == n;
      }
      if DetailsSummary(notifications, deliveries, id).Some? {
        SummaryBucketsAddUp(notifications, deliveries, id);
      }
    }

    constructor ()
      ensures Valid()
      ensures notifications == [] && deliveries == [] && nextId == 1
    {
      notifications, deliveries, nextId := [], [], 1;
    }

    /** The inner loop of the send action: the inserts for one chunk, which is
        the slice of the selected devices starting at position `attempted`;
        its first insert is insert number `attempted` of the call.
        `insertOk(m)` says whether insert number m succeeds; the first
        failing insert raises, which ends the loop. `base` is the table as
        it was when the transaction began. */
    method InsertChunk(id: int, chunk: seq<Device>, ghost selected: seq<Device>, attempted: nat,
                       ghost base: seq<Delivery>, insertOk: nat -> bool)
      returns (ok: bool, inserted: nat)
      requires attempted + |chunk| <= |selected| && chunk == selected[attempted..attempted + |chunk|]
      requires InsertsSucceed(attempted, insertOk)
      requires deliveries == base + FanOutRows(id, selected[..attempted])
      modifies this`deliveries
      ensures inserted <= |chunk|
      ensures InsertsSucceed(attempted + inserted, insertOk)
      ensures ok <==> inserted == |chunk|
      ensures !ok ==> !insertOk(attempted + inserted)
      ensures deliveries == base + FanOutRows(id, selected[..attempted + inserted])
    {
      inserted := 0;
      for j := 0 to |chunk|
        invariant inserted == j
        invariant InsertsSucceed(attempted + inserted, insertOk)
        invariant deliveries == base + FanOutRows(id, selected[..attempted + j])
      {
        if !insertOk(attempted + inserted) {
          ok := false;
          return;
        }
        FanOutRowsSnoc(id, selected, attempted + j);
        assert chunk[j] == selected[attempted + j];
        deliveries := deliveries + [Delivery(id, chunk[j].id, Queued)];
        inserted := inserted + 1;
      }
      ok := true;
    }

    /** The outer loop of the send action: the devices split by array_chunk,
        inserted chunk by chunk. The rows inserted before a failure are left
        for the caller to roll back. */
    method InsertDeliveries(id: int, selected: seq<Device>, chunkSize: nat, insertOk: nat -> bool)
      returns (ok: bool, inserted: nat)
      requires chunkSize > 0
      modifies this`deliveries
      ensures inserted <= |selected|
      ensures InsertsSucceed(inserted, insertOk)
      ensures ok <==> inserted == |selected|
      ensures !ok ==> !insertOk(inserted)
      ensures deliveries == old(deliveries) + FanOutRows(id, selected[..inserted])
    {
      var chunks := Chunk(selected, chunkSize);
      assert selected[..0] == [];
      inserted := 0;
      for i := 0 to |chunks|
        invariant inserted == Offset(chunks, i) <= |selected|
        invariant InsertsSucceed(inserted, insertOk)
        invariant deliveries == old(deliveries) + FanOutRows(id, selected[..inserted])
      {
        ChunkPiece(selected, chunkSize, i);
        var chunkOk, count := InsertChunk(id, chunks[i], selected, inserted, old(deliveries), insertOk);
        inserted := inserted + count;
        if !chunkOk {
          ok := false;
          return;
        }
      }
      ChunksEnd(selected, chunkSize);
      assert selected[..inserted] == selected;
      ok := true;
    }

    /** The send action as written: select the eligible devices, insert the
        notification row outside any transaction, then insert the delivery
        rows inside one. A failed delivery insert rolls back the delivery
        rows only. A title over the column limit makes the notification
        insert fail; a chunk size below 1 makes array_chunk raise before any
        delivery insert. */
    method SendByCountryId(title: string, message: string, countryId: int, directory: Directory,
                           chunkSize: int, now: int, insertOk: nat -> bool) returns (r: SendOutcome)
      requires Valid()
      modifies this
      ensures Valid()
      ensures var selected := Eligible(directory, countryId);
              var id := old(nextId);
              if |title| > MaxTitleLength then
                r == SendFailed && notifications == old(notifications) &&
                deliveries == old(deliveries) && nextId == old(nextId)
              else
                notifications == old(notifications) + [Notification(id, title, message, now)] &&
                nextId == id + 1 &&
                if chunkSize > 0 && InsertsSucceed(|selected|, insertOk) then
                  r == Created(id) && deliveries == old(deliveries) + FanOutRows(id, selected)
                else
                  r == SendFailed && deliveries == old(deliveries)
      ensures       var selected := Eligible(directory, countryId);
              r.Created? ==>
                Details(notifications, deliveries, r.notificationId) ==
                  if selected == [] then None
                  else Some(DetailsRow(r.notificationId, title, message, |selected|, 0, 0, 0))
    {
      var selected := Eligible(directory, countryId);
      if |title| > MaxTitleLength {
        return SendFailed;
      }
      var id := nextId;
      NotificationKeepsValid(notifications, deliveries, Notification(id, title, message, now));
      notifications := notifications + [Notification(id, title, message, now)];
      nextId := nextId + 1;
      // beginTransaction: the delivery rows as they are now
      var committed := deliveries;
      if chunkSize < 1 {
        return SendFailed;
      }
      var ok, inserted := InsertDeliveries(id, selected, chunkSize, insertOk);
      if !ok {
        // rollBack
        deliveries := committed;
        return SendFailed;
      }
      assert selected[..inserted] == selected;
      FanOutKeepsValid(notifications, committed, nextId, id, selected);
      CreatedReportsQueued(old(notifications), committed, Notification(id, title, message, now), selected);
      r := Created(id);
    }

    /** The send action with the transaction opened before the notification
        insert, so that a failed delivery insert leaves no notification row.
        The auto-increment counter is not rolled back. */
    method SendByCountryIdAtomic(title: string, message: string, countryId: int, directory: Directory,
                                 chunkSize: int, now: int, insertOk: nat -> bool) returns (r: SendOutcome)
      requires Valid()
      modifies this
      ensures Valid()
      ensures var selected := Eligible(directory, countryId);
              var id := old(nextId);
              if |title| <= MaxTitleLength && chunkSize > 0 && InsertsSucceed(|selected|, insertOk) then
                r == Created(id) && nextId == id + 1 &&
                notifications == old(notifications) + [Notification(id, title, message, now)] &&
                deliveries == old(deliveries) + FanOutRows(id, selected)
              else
                r == SendFailed && notifications == old(notifications) && deliveries == old(deliveries)
      ensures       var selected := Eligible(directory, countryId);
              r.Created? ==>
                Details(notifications, deliveries, r.notificationId) ==
                  if selected == [] then None
                  else Some(DetailsRow(r.notificationId, title, message, |selected|, 0, 0, 0))
    {
      var selected := Eligible(directory, countryId);
      if |title| > MaxTitleLength {
        return SendFailed;
      }
      // beginTransaction: both tables as they are now
      var committedNotifications, committedDeliveries := notifications, deliveries;
      ghost var committed := deliveries;
      var id := nextId;
      CounterKeepsValid(notifications, deliveries, id);
      NotificationKeepsValid(notifications, deliveries, Notification(id, title, message, now));
      notifications := notifications + [Notification(id, title, message, now)];
      nextId := nextId + 1;
      if chunkSize < 1 {
        notifications := committedNotifications;
        return SendFailed;
      }
      var ok, inserted := InsertDeliveries(id, selected, chunkSize, insertOk);
      if !ok {
        // rollBack
        notifications, deliveries := committedNotifications, committedDeliveries;
        return SendFailed;
      }
      assert selected[..inserted] == selected;
      FanOutKeepsValid(notifications, committed, nextId, id, selected);
      CreatedReportsQueued(committedNotifications, committed, Notification(id, title, message, now), selected);
      r := Created(id);
    }

    /** One execution of the queue query with LIMIT :limit OFFSET :offset:
        at most `limit` candidates, the view's candidates from position
        `offset` on, and none once the offset passes the end. */
    function QueuePage(devices: seq<Device>, offset: nat, limit: nat): (r: seq<Candidate>)
      reads this
      ensures |r| <= limit
      ensures r == [] <==> limit == 0 || offset >= |QueuedView(notifications, deliveries, devices)|
      ensures forall i :: 0 <= i < |r| ==>
                offset + i < |QueuedView(notifications, deliveries, devices)| &&
                r[i] == QueuedView(notifications, deliveries, devices)[offset + i]
    {
      Page(QueuedView(notifications, deliveries, devices), offset, limit)
    }

    /** The drain loop: fetch LIMIT/OFFSET pages of the queue query, append
        each non-empty page, advance the offset by the page size, and stop
        at the first empty page. The page size bounds each fetch, not the
        result. */
    method GetQueuedNotifications(devices: seq<Device>, limit: nat) returns (queued: seq<Candidate>)
      ensures queued == if limit == 0 then [] else QueuedView(notifications, deliveries, devices)
    {
      ghost var view := QueuedView(notifications, deliveries, devices);
      queued := [];
      var offset: nat := 0;
      while true
        invariant queued == view[..Min(offset, |view|)]
        invariant limit == 0 ==> offset == 0
        decreases |view| - offset
      {
        var page := QueuePage(devices, offset, limit);
        assert page == Page(view, offset, limit);
        if page == [] {
          if limit > 0 {
            PageExhausts(view, offset, limit);
          }
          break;
        }
        PageExtends(view, offset, limit);
        queued := queued + page;
        offset := offset + limit;
      }
    }

    /** The cron run: drain the queue, call the transport once per candidate
        (call `i` returns `send(i)`), and keep per-notification sent/failed
        counters in a dictionary keyed by notification id, returned in key
        insertion order. Nothing is written to the store. */
    method Cron(devices: seq<Device>, limit: nat, send: nat -> bool) returns (out: seq<Summary>)
      ensures var cs := if limit == 0 then [] else QueuedView(notifications, deliveries, devices);
              IsAggregate(out, cs, send) &&
              forall j :: 0 <= j < |out| ==>
                Count(cs, out[j].notificationId, |cs|) > 0 &&
                FromCandidate(out[j], cs[FirstIndex(cs, out[j].notificationId, |cs|)])
      ensures forall j :: 0 <= j < |out| ==>
                HasContentOf(notifications, out[j].notificationId, out[j].title, out[j].message)
      ensures limit == 0 || QueuedView(notifications, deliveries, devices) == [] ==> out == []
    {
      var cs := GetQueuedNotifications(devices, limit);
      forall i | 0 <= i < |cs|
        ensures HasContentOf(notifications, cs[i].notificationId, cs[i].title, cs[i].message)
      {
        assert cs[i] in cs;
        ViewCarriesNotification(notifications, deliveries, devices, cs[i]);
      }
      out := Tally(cs, send);
      forall j | 0 <= j < |out|
        ensures HasContentOf(notifications, out[j].notificationId, out[j].title, out[j].message)
      {
        var m := FirstIndex(cs, out[j].notificationId, |cs|);
        assert FromCandidate(out[j], cs[m]);
      }
    }
  }

  /** A country with one eligible device whose delivery insert fails: the
      send action reports failure yet leaves the notification row behind,
      with no delivery row pointing at it. */
  method OrphanedNotification() returns (r: SendOutcome, notificationRows: nat, deliveryRows: nat)
    ensures r == SendFailed && notificationRows == 1 && deliveryRows == 0
  {
    var store := new Store();
    var directory := Directory(map[7 := 4], [Device(10, 7, "token", 0)]);
    assert Eligible(directory, 4) == [Device(10, 7, "token", 0)];
    var failing := (m: nat) => false;
    assert !failing(0);
    r := store.SendByCountryId("Hello", "World", 4, directory, 100, 0, failing);
    notificationRows, deliveryRows := |store.notifications|, |store.deliveries|;
  }

  /** The same call against the transactional send action leaves both tables
      empty. */
  method NoOrphanWhenAtomic() returns (r: SendOutcome, notificationRows: nat, deliveryRows: nat)
    ensures r == SendFailed && notificationRows == 0 && deliveryRows == 0
  {
    var store := new Store();
    var directory := Directory(map[7 := 4], [Device(10, 7, "token", 0)]);
    assert Eligible(directory, 4) == [Device(10, 7, "token", 0)];
    var failing := (m: nat) => false;
    assert !failing(0);
    r := store.SendByCountryIdAtomic("Hello", "World", 4, directory, 100, 0, failing);
    notificationRows, deliveryRows := |store.notifications|, |store.deliveries|;
  }

  /** A country without eligible devices: the notification row is created,
      no delivery row is, and the send action succeeds with the new id. */
  method NoEligibleDevices() returns (r: SendOutcome, notificationRows: nat, deliveryRows: nat)
    ensures r == Created(1) && notificationRows == 1 && deliveryRows == 0
  {
    var store := new Store();
    var directory := Directory(map[7 := 4], [Device(10, 7, "token", 1), Device(11, 8, "other", 0)]);
    assert Eligible(directory, 4) == [];
    var failing := (m: nat) => false;
    assert !failing(0);
    r := store.SendByCountryId("Hello", "World", 4, directory, 100, 0, failing);
    notificationRows, deliveryRows := |store.notifications|, |store.deliveries|;
  }
}
