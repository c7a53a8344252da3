/**
 * The GitHub webhook handler of internal/receiver, which produces
 * types.Event values: the signature rule, the order of the request checks,
 * the delivery-ID fallback and the fields of the event it enqueues.
 */
module Receiver {
  import opened Wrappers
  import opened Types
  import opened Http
  import Text
  import Channels

  const EventHeader: string := "X-GitHub-Event"
  const SignatureHeader: string := "X-Hub-Signature-256"
  const DeliveryHeader: string := "X-GitHub-Delivery"
  const SignaturePrefix: string := "sha256="
  const GeneratedIdPrefix: string := "gh_"
  const SourcePrefix: string := "github.com/"

  /** The handler's configuration: the webhook secret and the debug switch. */
  datatype Handler = Handler(secret: string, debug: bool)

  /** NewGitHubWebhookHandler: debug is always switched on. */
  function NewHandler(secret: string): (h: Handler)
    ensures h.secret == secret && h.debug
  {
    Handler(secret, true)
  }

  /** The lower-case hex HMAC-SHA256 of a body under a secret. */
  type MacFn = (string, Bytes) -> string

  /**
   * What the handler's two json.Unmarshal calls yield: raw is the body's
   * JSON value (None when the body is not valid JSON); repoFullName is
   * repository.full_name when the payload is an object whose repository is
   * an object with a string full_name, None otherwise.
   */
  datatype JsonReader = JsonReader(raw: Bytes -> Option<Bytes>, repoFullName: Bytes -> Option<string>)

  /**
   * validateSignature: accepts an unsigned request in debug mode, accepts
   * everything when no secret is configured, and otherwise accepts exactly a
   * "sha256=" signature whose hex digest is the body's MAC.
   */
  function ValidateSignature(h: Handler, signature: string, body: Bytes, mac: MacFn): (ok: bool)
    ensures h.debug && signature == "" ==> ok
    ensures h.secret == "" ==> ok
    ensures !(h.debug && signature == "") && h.secret != "" ==>
      (ok <==> Text.HasPrefix(signature, SignaturePrefix) && Text.TrimPrefix(signature, SignaturePrefix) == mac(h.secret, body))
  {
    if h.debug && signature == "" then true
    else if h.secret == "" then true
    else if !Text.HasPrefix(signature, SignaturePrefix) then false
    else Text.TrimPrefix(signature, SignaturePrefix) == mac(h.secret, body)
  }

  /** The handler consults validateSignature only when debug is off or a signature was sent. */
  predicate SignatureChecked(h: Handler, signature: string)
  {
    !h.debug || signature != ""
  }

  /** The X-GitHub-Delivery header, or "gh_" and the receive time in nanoseconds when it is missing. */
  function DeliveryId(r: Request, now: int): (id: string)
    ensures id != ""
    ensures Header(r, DeliveryHeader) != "" ==> id == Header(r, DeliveryHeader)
    ensures Header(r, DeliveryHeader) == "" ==> id == GeneratedIdPrefix + Text.IntToString(now)
  {
    var d := Header(r, DeliveryHeader);
    if d == "" then GeneratedIdPrefix + Text.IntToString(now) else d
  }

  /** repository.full_name, or "" when the payload does not carry one. */
  function RepoName(json: JsonReader, payload: Bytes): string
  {
    match json.repoFullName(payload)
    case Some(name) => name
    case None => ""
  }

  /** The event built for an accepted request whose body's JSON value is payload. */
  function BuildEvent(r: Request, now: int, json: JsonReader, payload: Bytes): (e: Event)
    ensures e.id != "" && e.time == now && e.data == payload && e.specVersion == SpecVersionV1
    ensures Text.HasPrefix(e.source, SourcePrefix) && Text.TrimPrefix(e.source, SourcePrefix) == RepoName(json, payload)
    ensures Text.HasPrefix(e.eventType, "github.") && Text.TrimPrefix(e.eventType, "github.") == Header(r, EventHeader)
    ensures e.extensions.Keys == {"delivery_id", "event_type", "repository", "headers"}
    ensures e.extensions["delivery_id"] == ExtString(e.id)
    ensures e.extensions["event_type"] == ExtString(Header(r, EventHeader))
    ensures e.extensions["repository"] == ExtString(RepoName(json, payload))
    ensures e.extensions["headers"]
      == ExtHeaders(map["User-Agent" := Header(r, "User-Agent"), "Content-Type" := Header(r, "Content-Type")])
    ensures e.subject == "" && e.dataSchema == ""
  {
    var id := DeliveryId(r, now);
    var repo := RepoName(json, payload);
    Text.TrimPrefixOfConcat(SourcePrefix, repo);
    Text.TrimPrefixOfConcat("github.", Header(r, EventHeader));
    Event(
      id,
      SourcePrefix + repo,
      SpecVersionV1,
      "github." + Header(r, EventHeader),
      now,
      payload,
      "",
      "",
      map["delivery_id" := ExtString(id),
          "event_type" := ExtString(Header(r, EventHeader)),
          "repository" := ExtString(repo),
          "headers" := ExtHeaders(map["User-Agent" := Header(r, "User-Agent"),
                                      "Content-Type" := Header(r, "Content-Type")])])
  }

  /**
   * HandleWebhook up to the enqueue: 405 for a method other than POST, 400
   * for a missing event header, 400 when the body cannot be read, 401 for a
   * signature that is checked and fails, 400 for a body that is not JSON,
   * and otherwise the event to enqueue.
   */
  function Decide(h: Handler, r: Request, now: int, mac: MacFn, json: JsonReader): (v: Verdict<Event>)
    ensures v == Reject(StatusMethodNotAllowed) <==> r.verb != MethodPost
    ensures v == Reject(StatusUnauthorized) <==>
      && r.verb == MethodPost && Header(r, EventHeader) != "" && r.body.Some?
      && SignatureChecked(h, Header(r, SignatureHeader))
      && !ValidateSignature(h, Header(r, SignatureHeader), r.body.value, mac)
    ensures v.Enqueue? <==>
      && r.verb == MethodPost && Header(r, EventHeader) != "" && r.body.Some?
      && (SignatureChecked(h, Header(r, SignatureHeader)) ==> ValidateSignature(h, Header(r, SignatureHeader), r.body.value, mac))
      && json.raw(r.body.value).Some?
    ensures v.Reject? ==> v.status in {StatusBadRequest, StatusUnauthorized, StatusMethodNotAllowed}
    ensures v.Enqueue? ==>
      && v.event.id == DeliveryId(r, now)
      && v.event.source == SourcePrefix + RepoName(json, json.raw(r.body.value).value)
      && v.event.eventType == "github." + Header(r, EventHeader)
      && v.event.specVersion == SpecVersionV1
      && v.event.time == now
      && v.event.data == json.raw(r.body.value).value
  {
    if r.verb != MethodPost then Reject(StatusMethodNotAllowed)
    else if Header(r, EventHeader) == "" then Reject(StatusBadRequest)
    else if r.body.None? then Reject(StatusBadRequest)
    else
      var body := r.body.value;
      var signature := Header(r, SignatureHeader);
      if SignatureChecked(h, signature) && !ValidateSignature(h, signature, body, mac) then Reject(StatusUnauthorized)
      else match json.raw(body)
        case None => Reject(StatusBadRequest)
        case Some(payload) => Enqueue(BuildEvent(r, now, json, payload))
  }

  /** HandleWebhook: the checks, then a non-blocking send answered with 202, or 503 when the queue is full. */
  method HandleWebhook(h: Handler, r: Request, now: int, mac: MacFn, json: JsonReader, ch: Channels.Channel<Event>)
    returns (status: int)
    requires ch.Valid() && !ch.closed
    modifies ch
    ensures ch.Valid() && !ch.closed
    ensures var v := Decide(h, r, now, mac, json);
      && (v.Reject? ==> status == v.status && ch.buf == old(ch.buf))
      && (v.Enqueue? && |old(ch.buf)| < ch.capacity ==> status == StatusAccepted && ch.buf == old(ch.buf) + [v.event])
      && (v.Enqueue? && |old(ch.buf)| >= ch.capacity ==> status == StatusServiceUnavailable && ch.buf == old(ch.buf))
  {
    status := Respond(Decide(h, r, now, mac, json), ch);
  }

  // ---------------------------------------------------------------------------
  // Properties

  /** A request signed with the body's MAC is accepted. */
  lemma GenuineSignatureAccepted(h: Handler, body: Bytes, mac: MacFn)
    ensures ValidateSignature(h, SignaturePrefix + mac(h.secret, body), body, mac)
  {
    Text.TrimPrefixOfConcat(SignaturePrefix, mac(h.secret, body));
  }

  /** With a secret configured, any other non-empty signature is rejected. */
  lemma ForgedSignatureRejected(h: Handler, signature: string, body: Bytes, mac: MacFn)
    requires h.secret != "" && signature != "" && signature != SignaturePrefix + mac(h.secret, body)
    ensures !ValidateSignature(h, signature, body, mac)
  {
  }

  /**
   * Debug is hard-wired on: a request without a signature never gets 401,
   * whatever secret is configured.
   */
  lemma UnsignedRequestsPass(secret: string, r: Request, now: int, mac: MacFn, json: JsonReader)
    requires Header(r, SignatureHeader) == ""
    ensures Decide(NewHandler(secret), r, now, mac, json) != Reject(StatusUnauthorized)
  {
  }

  /** A generated delivery ID gives back the receive time it was made from. */
  lemma GeneratedIdRoundTrip(r: Request, now: int)
    requires Header(r, DeliveryHeader) == ""
    ensures Text.HasPrefix(DeliveryId(r, now), GeneratedIdPrefix)
    ensures Text.ParseInt(Text.TrimPrefix(DeliveryId(r, now), GeneratedIdPrefix)) == Some(now)
  {
    Text.TrimPrefixOfConcat(GeneratedIdPrefix, Text.IntToString(now));
    Text.ParseIntToString(now);
  }

  /** Requests without a delivery header received at different times get different IDs. */
  lemma GeneratedIdsDistinct(r1: Request, r2: Request, t1: int, t2: int)
    requires Header(r1, DeliveryHeader) == "" && Header(r2, DeliveryHeader) == "" && t1 != t2
    ensures DeliveryId(r1, t1) != DeliveryId(r2, t2)
  {
    if DeliveryId(r1, t1) == DeliveryId(r2, t2) {
      Text.TrimPrefixOfConcat(GeneratedIdPrefix, Text.IntToString(t1));
      Text.TrimPrefixOfConcat(GeneratedIdPrefix, Text.IntToString(t2));
      Text.IntToStringInjective(t1, t2);
    }
  }

  /**
   * Every enqueued event carries the attributes listed under "REQUIRED
   * Attributes" in the CloudEvents 1.0 specification; its extensions mirror its ID, the
   * event header and the repository, and record the User-Agent and Content-Type headers.
   */
  lemma EnqueuedEventIsComplete(h: Handler, r: Request, now: int, mac: MacFn, json: JsonReader)
    requires Decide(h, r, now, mac, json).Enqueue?
    ensures var e := Decide(h, r, now, mac, json).event;
      && e.id != "" && e.source != "" && e.eventType != "" && e.specVersion == SpecVersionV1
      && e.extensions.Keys == {"delivery_id", "event_type", "repository", "headers"}
      && e.extensions["delivery_id"] == ExtString(e.id)
      && e.extensions["event_type"] == ExtString(Header(r, EventHeader))
      && e.source == SourcePrefix + e.extensions["repository"].s
      && e.extensions["headers"]
           == ExtHeaders(map["User-Agent" := Header(r, "User-Agent"), "Content-Type" := Header(r, "Content-Type")])
      && e.subject == "" && e.dataSchema == ""
  {
  }
}
