/** Entities of the pickup point: orders, events, outbox and dead-letter rows, and the constants
    of the retry protocol. */
module Domain {

  /** Instants and durations, in nanoseconds. */
  type Time = int

  const SECOND: Time := 1_000_000_000
  const MINUTE: Time := 60 * SECOND
  const HOUR: Time := 60 * MINUTE

  const MAX_RETRY_ATTEMPTS := 3
  const RETRY_DELAY: Time := 2 * SECOND
  const DLQ_MAX_RETRIES := 3
  const DLQ_RETRY_DELAY: Time := DlqBackOff(1)
  const RETURN_PERIOD: Time := 48 * HOUR

  /** The wait after the `count`-th failed resend: 30 minutes, that many times. */
  function DlqBackOff(count: nat): Time {
    1_800_000_000_000 * count
  }

  datatype Option<+T> = None | Some(value: T)

  datatype OrderStatus =
    | InStorage
    | GivenToClient
    | ReturnedFromClient
    | ReturnedWithoutClient
    | GivenToCourier

  datatype Order = Order(
    orderId: nat,
    receiverId: nat,
    storageUntil: Time,
    status: OrderStatus,
    acceptTime: Time,
    lastUpdateTime: Time,
    packageType: string,
    weight: real,
    price: real)

  datatype OrderHistory = OrderHistory(orderId: nat, status: OrderStatus, changedAt: Time)

  datatype PackageRules = PackageRules(maxWeight: real, price: real)

  datatype EventType = OrderAccepted | OrderReturnedToCourier | OrderIssued | OrderReturnedByClient

  datatype ActorType = Courier | Client | System

  datatype Actor = Actor(actorType: ActorType, id: nat)

  datatype OrderInfo = OrderInfo(id: nat, userId: nat, status: string)

  /** The part of an event that the operations choose; its generated id, timestamp and constant
      source are not part of this model. */
  datatype Event = Event(eventType: EventType, actor: Actor, order: OrderInfo)

  datatype OutboxStatus = Created | Processing | Completed | Failed

  datatype OutboxRow = OutboxRow(
    payload: Event,
    status: OutboxStatus,
    error: Option<string>,
    attempts: nat,
    createdAt: Time,
    sentAt: Option<Time>,
    lastAttemptAt: Option<Time>)
  {
    /** The in-memory guard of the worker. */
    predicate CanRetry(now: Time) {
      attempts < MAX_RETRY_ATTEMPTS && (lastAttemptAt.None? || now - lastAttemptAt.value >= RETRY_DELAY)
    }

    predicate ShouldFail() {
      attempts >= MAX_RETRY_ATTEMPTS
    }

    /** The row's place on the only path a status can take. */
    function Rank(): nat {
      match status
      case Created => 0
      case Processing => 1
      case Completed => 2
      case Failed => 2
    }
  }

  /** A selected outbox row together with its key. */
  datatype OutboxMessage = OutboxMessage(id: nat, row: OutboxRow)

  datatype DlqRow = DlqRow(
    originalId: nat,
    payload: Event,
    error: string,
    attempts: nat,
    failedAt: Time,
    retryAfter: Time,
    processCount: nat,
    maxRetries: nat)
  {
    /** The row after one more failed resend noticed at `now`: linear back-off. */
    function IncrementRetry(now: Time): DlqRow {
      this.(processCount := processCount + 1,
      retryAfter := now + DlqBackOff(processCount + 1))
    }
  }

  datatype DlqMessage = DlqMessage(id: nat, row: DlqRow)

  /** What can become of one statement or one send: it succeeds; it is refused without effect; it
      takes effect but its caller is told otherwise; or the process dies just before or just
      after the effect. */
  datatype Outcome = Done | Refused | Lost | CrashBefore | CrashAfter
  {
    predicate Applied() { Done? || Lost? || CrashAfter? }

    predicate Crashed() { CrashBefore? || CrashAfter? }
  }
}
