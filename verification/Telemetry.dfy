/** The vocabulary shared by the storage protocol: events, the endpoint-day buckets
    they are archived in, and the endpoint-minute keys they are rolled up under. */
module Telemetry {

  datatype Option<+T> = None | Some(value: T)

  const MILLIS_PER_MINUTE := 60_000
  const HOUR := 60 // in minutes
  const MINUTES_PER_DAY := 1440

  /** A normalized event. `payload_sha256` is a digest of the event type, the time and the
      payload, so the three fields `kind`, `at` and `body` stand for the digest: two events
      have equal identities exactly when they are equal values. `at` counts milliseconds. */
  datatype Event = Event(id: int, endpoint: int, agent: string, kind: string, at: nat, body: string)

  /** One UTC day of one endpoint: the unit that is archived and restored. */
  datatype Bucket = Bucket(endpoint: int, day: nat)

  /** One minute of one endpoint: the unit that is rolled up. */
  datatype Key = Key(endpoint: int, minute: nat)

  function MinuteOf(e: Event): nat { e.at / MILLIS_PER_MINUTE }

  function HourOf(e: Event): nat { MinuteOf(e) / HOUR }

  function DayOfMinute(minute: int): (day: int)
    ensures minute >= 0 ==> day >= 0
  {
    minute / MINUTES_PER_DAY
  }

  function DayOf(e: Event): nat { DayOfMinute(MinuteOf(e)) }

  function BucketOf(e: Event): Bucket { Bucket(e.endpoint, DayOf(e)) }

  function KeyOf(e: Event): Key { Key(e.endpoint, MinuteOf(e)) }
}
