/**
 * The normalised event of the receiver/collector revision (pkg/types Event) and
 * the time units shared by every module. Timestamps and durations are integer
 * nanoseconds, as Go's time.Duration counts them.
 */
module Types {
  newtype byte = b: int | 0 <= b < 256

  /** An opaque byte payload (a JSON document the model never looks inside). */
  type Bytes = seq<byte>

  const Millisecond: int := 1_000_000
  const Second: int := 1000 * Millisecond
  const Hour: int := 3600 * Second

  /** cloudevents.VersionV1, also written as the literal "1.0". */
  const SpecVersionV1: string := "1.0"

  /** An extension value: the code stores strings, and one header map in the receiver. */
  datatype ExtValue = ExtString(s: string) | ExtHeaders(headers: map<string, string>)

  /** types.Event: the CloudEvents required attributes plus data, subject and extensions. */
  datatype Event = Event(
    id: string,
    source: string,
    specVersion: string,
    eventType: string,
    time: int,
    data: Bytes,
    subject: string,
    dataSchema: string,
    extensions: map<string, ExtValue>)
}
