/**
 * The Kubernetes event source of internal/source: the informer callbacks'
 * recency filter and handleEvent, which maps a core/v1 Event to a CloudEvent
 * and offers it to the shared queue, dropping it when the queue is full.
 */
module Kube {
  import opened Wrappers
  import opened Types
  import opened CloudEvents
  import Text
  import Channels

  const TypePrefix: string := "com.kubernetes."
  const SourceBase: string := "kubernetes://unknown"

  /** The fields of a core/v1 Event that handleEvent reads; lastTimestamp in nanoseconds. */
  datatype KubeEvent = KubeEvent(
    uid: string,
    kind: string,
    name: string,
    namespace: string,
    reason: string,
    eventType: string,
    component: string,
    lastTimestamp: int)

  /**
   * An informer notification. An object that is not a *corev1.Event fails
   * the callback's type assertion and is None here.
   */
  datatype Notification =
    | Added(obj: Option<KubeEvent>)
    | Updated(oldObj: Option<KubeEvent>, newObj: Option<KubeEvent>)

  /** json.Marshal of the event; None when it fails. */
  type Marshaller = KubeEvent -> Option<Bytes>

  /** SetData's encoding of the marshalled bytes; None when the SDK reports an error. */
  type DataEncoder = Bytes -> Option<Bytes>

  /** time.Since(LastTimestamp) < time.Hour. */
  predicate Recent(e: KubeEvent, now: int)
    ensures Recent(e, now) <==> e.lastTimestamp > now - Hour
  {
    now - e.lastTimestamp < Hour
  }

  /**
   * The event an AddFunc or UpdateFunc callback hands to handleEvent: the
   * added object, or for an update the new one, when it is an Event
   * seen less than an hour ago.
   */
  function Forwarded(n: Notification, now: int): (r: Option<KubeEvent>)
    ensures r.Some? ==> Recent(r.value, now)
    ensures n.Added? ==> (r.Some? <==> n.obj.Some? && Recent(n.obj.value, now)) && (r.Some? ==> r == n.obj)
    ensures n.Updated? ==> (r.Some? <==> n.newObj.Some? && Recent(n.newObj.value, now)) && (r.Some? ==> r == n.newObj)
  {
    var obj := if n.Added? then n.obj else n.newObj;
    if obj.Some? && Recent(obj.value, now) then obj else None
  }

  /** "com.kubernetes." + lower(kind) + "." + lower(reason). */
  function EventType(e: KubeEvent): (t: string)
    ensures Text.HasPrefix(t, TypePrefix)
    ensures Text.TrimPrefix(t, TypePrefix) == Text.AsciiLower(e.kind) + "." + Text.AsciiLower(e.reason)
    ensures |t| == |TypePrefix| + |e.kind| + 1 + |e.reason| && t[|TypePrefix| + |e.kind|] == '.'
  {
    Text.TrimPrefixOfConcat(TypePrefix, Text.AsciiLower(e.kind) + "." + Text.AsciiLower(e.reason));
    assert TypePrefix + Text.AsciiLower(e.kind) + "." + Text.AsciiLower(e.reason)
      == TypePrefix + (Text.AsciiLower(e.kind) + "." + Text.AsciiLower(e.reason));
    TypePrefix + Text.AsciiLower(e.kind) + "." + Text.AsciiLower(e.reason)
  }

  /** kubernetes://unknown, followed by "/" and the namespace when there is one. */
  function Source(namespace: string): (s: string)
    ensures namespace == "" ==> s == SourceBase
    ensures namespace != "" ==> Text.HasPrefix(s, SourceBase + "/") && Text.TrimPrefix(s, SourceBase + "/") == namespace
  {
    Text.TrimPrefixOfConcat(SourceBase + "/", namespace);
    if namespace == "" then SourceBase else SourceBase + "/" + namespace
  }

  /** The extensions set for routing, keyed as handleEvent keys them. */
  function Extensions(e: KubeEvent): (m: map<string, string>)
    ensures m.Keys == {"namespace", "kind", "name", "reason", "type", "component"}
    ensures m["namespace"] == e.namespace && m["kind"] == e.kind && m["name"] == e.name
    ensures m["reason"] == e.reason && m["type"] == e.eventType && m["component"] == e.component
  {
    map["namespace" := e.namespace, "kind" := e.kind, "name" := e.name,
        "reason" := e.reason, "type" := e.eventType, "component" := e.component]
  }

  /**
   * handleEvent up to the send: the CloudEvent, or None when marshalling the
   * event or SetData fails, in which case nothing is sent.
   */
  function ToCloudEvent(e: KubeEvent, marshal: Marshaller, encode: DataEncoder): (r: Option<CloudEvent>)
    ensures r.Some? <==> marshal(e).Some? && encode(marshal(e).value).Some?
    ensures r.Some? ==>
      && r.value.id == e.uid
      && r.value.eventType == EventType(e)
      && r.value.time == Some(e.lastTimestamp)
      && r.value.specVersion == SpecVersionV1
      && r.value.dataContentType == ApplicationJson
      && r.value.subject == Some(e.kind + "/" + e.name)
      && r.value.source == Source(e.namespace)
      && r.value.extensions == Extensions(e)
      && r.value.data == encode(marshal(e).value).value
  {
    match marshal(e)
    case None => None
    case Some(json) =>
      match encode(json)
      case None => None
      case Some(data) =>
        Some(NewEvent().(
          id := e.uid,
          eventType := EventType(e),
          time := Some(e.lastTimestamp),
          specVersion := SpecVersionV1,
          dataContentType := ApplicationJson,
          subject := Some(e.kind + "/" + e.name),
          source := Source(e.namespace),
          extensions := Extensions(e),
          data := data))
  }

  /**
   * One informer callback: filter, build, and offer the event to the queue
   * without blocking, dropping it when the queue is full.
   */
  method Notify(n: Notification, now: int, marshal: Marshaller, encode: DataEncoder, ch: Channels.Channel<CloudEvent>)
    returns (sent: bool)
    requires ch.Valid() && !ch.closed
    modifies ch
    ensures ch.Valid() && !ch.closed
    ensures var ce := if Forwarded(n, now).Some? then ToCloudEvent(Forwarded(n, now).value, marshal, encode) else None;
      && (sent <==> ce.Some? && |old(ch.buf)| < ch.capacity)
      && ch.buf == if sent then old(ch.buf) + [ce.value] else old(ch.buf)
  {
    var e := Forwarded(n, now);
    if e.None? {
      return false;
    }
    var ce := ToCloudEvent(e.value, marshal, encode);
    if ce.None? {
      return false;
    }
    sent := ch.TrySend(ce.value);
  }

  // ---------------------------------------------------------------------------
  // Properties

  /**
   * The type is the prefix followed by the kind and the reason with no
   * upper-case ASCII letter left, and lowering it again changes nothing.
   */
  lemma {:induction false} EventTypeIsLowercase(e: KubeEvent)
    ensures var t := EventType(e);
      && Text.HasPrefix(t, TypePrefix)
      && (forall i :: |TypePrefix| <= i < |t| ==> !Text.IsUpper(t[i]))
      && Text.AsciiLower(Text.TrimPrefix(t, TypePrefix)) == Text.TrimPrefix(t, TypePrefix)
  {
    var k := Text.AsciiLower(e.kind);
    var rs := Text.AsciiLower(e.reason);
    var t := EventType(e);
    assert t == TypePrefix + (k + "." + rs);
    Text.TrimPrefixOfConcat(TypePrefix, k + "." + rs);
    Text.AsciiLowerIdempotent(e.kind);
    Text.AsciiLowerIdempotent(e.reason);
    forall i | |TypePrefix| <= i < |t|
      ensures !Text.IsUpper(t[i])
    {
      var j := i - |TypePrefix|;
      if j < |k| {
        assert t[i] == k[j];
      } else if j > |k| {
        assert t[i] == rs[j - |k| - 1];
      }
    }
    LowerOfLowered(k + "." + rs);
  }

  /** A string with no upper-case ASCII letter is its own lowering. */
  lemma {:induction false} LowerOfLowered(s: string)
    requires forall i :: 0 <= i < |s| ==> !Text.IsUpper(s[i])
    ensures Text.AsciiLower(s) == s
  {
    forall i | 0 <= i < |s|
      ensures Text.AsciiLower(s)[i] == s[i]
    {
      Text.AsciiLowerAt(s, i);
    }
  }

  /** The notification from an update is judged by its new object only; the old one never matters. */
  lemma UpdateUsesNewObject(a: Option<KubeEvent>, b: Option<KubeEvent>, e: KubeEvent, now: int)
    ensures Forwarded(Updated(a, Some(e)), now) == Forwarded(Added(Some(e)), now)
    ensures Forwarded(Updated(a, Some(e)), now) == Forwarded(Updated(b, Some(e)), now)
  {
  }

  /** An event last seen an hour or more ago is never forwarded. */
  lemma StaleEventsDropped(n: Notification, e: KubeEvent, now: int)
    requires n == Added(Some(e)) || (n.Updated? && n.newObj == Some(e))
    requires now - e.lastTimestamp >= Hour
    ensures Forwarded(n, now).None?
  {
  }
}
