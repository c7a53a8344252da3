/**
 * The CloudEvents SDK event of the source revision, seen only through the
 * setters the adapters call. The SDK's own validation and encoding are not part
 * of this model; SetData's outcome is a parameter of each adapter.
 */
module CloudEvents {
  import opened Wrappers
  import opened Types

  const ApplicationJson: string := "application/json"

  datatype CloudEvent = CloudEvent(
    id: string,
    source: string,
    specVersion: string,
    eventType: string,
    time: Option<int>,
    dataContentType: string,
    subject: Option<string>,
    data: Bytes,
    extensions: map<string, string>)

  /** cloudevents.NewEvent(): spec version 1.0, every other attribute unset. */
  function NewEvent(): (e: CloudEvent)
    ensures e.specVersion == SpecVersionV1 && e.id == "" && e.source == "" && e.eventType == ""
    ensures e.time.None? && e.subject.None? && e.extensions == map[]
    ensures e.dataContentType == "" && e.data == []
  {
    CloudEvent("", "", SpecVersionV1, "", None, "", None, [], map[])
  }

  /**
   * The attributes listed under "REQUIRED Attributes" in the CloudEvents 1.0
   * specification: id, source, specversion and type, each a non-empty string.
   */
  predicate HasRequiredAttributes(e: CloudEvent)
  {
    e.id != "" && e.source != "" && e.specVersion == SpecVersionV1 && e.eventType != ""
  }
}
