/** Record types of the two tables the controller reads and writes
    (push_notifications and notification_devices), the external device
    directory, and the rows the queue queries return. */
module Schema {

  /** `title` is declared as a string column limited to 50 characters. */
  const MaxTitleLength: nat := 50

  /** Status codes of a notification_devices row; the column defaults to 0. */
  const Queued: int := 0
  const InProgress: int := 1
  const Sent: int := 2
  const Failed: int := 3

  datatype Option<T> = None | Some(value: T)

  /** A push_notifications row. `createdAt` is the CURRENT_TIMESTAMP default. */
  datatype Notification = Notification(id: int, title: string, message: string, createdAt: int)

  /** A notification_devices row; its status is an integer column. */
  datatype Delivery = Delivery(notificationId: int, deviceId: int, status: int)

  /** A row of the externally owned devices table. */
  datatype Device = Device(id: int, userId: int, token: string, expired: int)

  /** The external device directory: the users table as a map from user id
      (its primary key) to country id, and the devices table. */
  datatype Directory = Directory(userCountry: map<int, int>, devices: seq<Device>)

  /** A row of the drain query: the queued delivery joined with its
      notification and its device; `createdAt` is the ordering key. */
  datatype Candidate = Candidate(notificationId: int, title: string, message: string, token: string, createdAt: int)

  /** One entry of the cron result: per-notification outcome counters. */
  datatype Summary = Summary(notificationId: int, title: string, message: string, sent: nat, failed: nat)

  /** The row the details query fetches. */
  datatype DetailsRow = DetailsRow(id: int, title: string, message: string,
                                   inQueue: nat, inProgress: nat, sent: nat, failed: nat)

  /** Outcome of the send action: the new notification id, or failure. */
  datatype SendOutcome = Created(notificationId: int) | SendFailed
}
