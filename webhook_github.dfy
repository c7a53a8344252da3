/**
 * The GitHub webhook source of internal/source, which produces CloudEvents:
 * its looser signature rule, its request checks and the CloudEvent it
 * enqueues.
 */
module WebhookGitHub {
  import opened Wrappers
  import opened Types
  import opened Http
  import opened CloudEvents
  import Text
  import Channels

  const EventHeader: string := "X-GitHub-Event"
  const SignatureHeader: string := "X-Hub-Signature-256"
  const DeliveryHeader: string := "X-GitHub-Delivery"
  const SignaturePrefix: string := "sha256="
  const SourcePrefix: string := "github.com/"
  const TypePrefix: string := "com.github."

  /** The handler's mount path and webhook secret. */
  datatype GitHubHandler = GitHubHandler(path: string, secret: string)

  /** The lower-case hex HMAC-SHA256 of a body under a secret. */
  type MacFn = (string, Bytes) -> string

  /**
   * json.Unmarshal of the body into its payload struct: None when the body
   * is not JSON or a field has the wrong type; repository.full_name, "" when
   * absent, otherwise.
   */
  type RepoParser = Bytes -> Option<string>

  /** SetData's encoding of the raw JSON body; None when the SDK reports an error. */
  type DataEncoder = Bytes -> Option<Bytes>

  /**
   * validateSignature: accepts when there is no secret or no signature, and
   * otherwise exactly a "sha256=" signature whose hex digest is the body's MAC.
   */
  function ValidateSignature(h: GitHubHandler, body: Bytes, signature: string, mac: MacFn): (ok: bool)
    ensures h.secret == "" || signature == "" ==> ok
    ensures h.secret != "" && signature != "" ==>
      (ok <==> Text.HasPrefix(signature, SignaturePrefix) && Text.TrimPrefix(signature, SignaturePrefix) == mac(h.secret, body))
  {
    if h.secret == "" || signature == "" then true
    else if !Text.HasPrefix(signature, SignaturePrefix) then false
    else Text.TrimPrefix(signature, SignaturePrefix) == mac(h.secret, body)
  }

  /**
   * The CloudEvent built from an accepted request: SetDataContentType is
   * called with the Content-Type header, but SetData then sets it to
   * application/json.
   */
  function BuildEvent(r: Request, now: int, fullName: string, data: Bytes): (ev: CloudEvent)
    ensures ev.id == Header(r, DeliveryHeader) && ev.time == Some(now) && ev.specVersion == SpecVersionV1
    ensures Text.HasPrefix(ev.source, SourcePrefix) && Text.TrimPrefix(ev.source, SourcePrefix) == fullName
    ensures Text.HasPrefix(ev.eventType, TypePrefix) && Text.TrimPrefix(ev.eventType, TypePrefix) == Header(r, EventHeader)
    ensures ev.dataContentType == ApplicationJson && ev.data == data && ev.subject.None?
    ensures ev.extensions.Keys == {"githubdeliveryid", "githubeventtype", "githubrepository"}
    ensures ev.extensions["githubdeliveryid"] == ev.id
    ensures ev.extensions["githubeventtype"] == Header(r, EventHeader)
    ensures ev.extensions["githubrepository"] == fullName
  {
    Text.TrimPrefixOfConcat(SourcePrefix, fullName);
    Text.TrimPrefixOfConcat(TypePrefix, Header(r, EventHeader));
    var e := NewEvent();
    e.(id := Header(r, DeliveryHeader),
       source := SourcePrefix + fullName,
       eventType := TypePrefix + Header(r, EventHeader),
       time := Some(now),
       specVersion := SpecVersionV1,
       dataContentType := ApplicationJson,
       data := data,
       extensions := map["githubdeliveryid" := Header(r, DeliveryHeader),
                         "githubeventtype" := Header(r, EventHeader),
                         "githubrepository" := fullName])
  }

  /**
   * The handler up to the enqueue: 405 for a method other than POST, 400 for
   * a missing event header, 400 when the body cannot be read, 401 for a
   * failed signature, 400 when the payload does not parse, 500 when SetData
   * fails, and otherwise the CloudEvent to enqueue.
   */
  function Decide(h: GitHubHandler, r: Request, now: int, mac: MacFn, parse: RepoParser, encode: DataEncoder): (v: Verdict<CloudEvent>)
    ensures v == Reject(StatusMethodNotAllowed) <==> r.verb != MethodPost
    ensures v == Reject(StatusUnauthorized) <==>
      && r.verb == MethodPost && Header(r, EventHeader) != "" && r.body.Some?
      && !ValidateSignature(h, r.body.value, Header(r, SignatureHeader), mac)
    ensures v == Reject(StatusInternalServerError) <==>
      && r.verb == MethodPost && Header(r, EventHeader) != "" && r.body.Some?
      && ValidateSignature(h, r.body.value, Header(r, SignatureHeader), mac)
      && parse(r.body.value).Some? && encode(r.body.value).None?
    ensures v.Enqueue? <==>
      && r.verb == MethodPost && Header(r, EventHeader) != "" && r.body.Some?
      && ValidateSignature(h, r.body.value, Header(r, SignatureHeader), mac)
      && parse(r.body.value).Some? && encode(r.body.value).Some?
    ensures v.Reject? ==> v.status in {StatusBadRequest, StatusUnauthorized, StatusMethodNotAllowed, StatusInternalServerError}
    ensures v.Enqueue? ==>
      && v.event.id == Header(r, DeliveryHeader)
      && v.event.source == SourcePrefix + parse(r.body.value).value
      && v.event.eventType == TypePrefix + Header(r, EventHeader)
      && v.event.specVersion == SpecVersionV1
      && v.event.time == Some(now)
      && v.event.data == encode(r.body.value).value
  {
    if r.verb != MethodPost then Reject(StatusMethodNotAllowed)
    else if Header(r, EventHeader) == "" then Reject(StatusBadRequest)
    else if r.body.None? then Reject(StatusBadRequest)
    else
      var body := r.body.value;
      if !ValidateSignature(h, body, Header(r, SignatureHeader), mac) then Reject(StatusUnauthorized)
      else match parse(body)
        case None => Reject(StatusBadRequest)
        case Some(fullName) =>
          match encode(body)
          case None => Reject(StatusInternalServerError)
          case Some(data) => Enqueue(BuildEvent(r, now, fullName, data))
  }

  /** The handler CreateHandler returns: the checks, then a non-blocking send answered with 202 or 503. */
  method Handle(h: GitHubHandler, r: Request, now: int, mac: MacFn, parse: RepoParser, encode: DataEncoder,
                ch: Channels.Channel<CloudEvent>)
    returns (status: int)
    requires ch.Valid() && !ch.closed
    modifies ch
    ensures ch.Valid() && !ch.closed
    ensures var v := Decide(h, r, now, mac, parse, encode);
      && (v.Reject? ==> status == v.status && ch.buf == old(ch.buf))
      && (v.Enqueue? && |old(ch.buf)| < ch.capacity ==> status == StatusAccepted && ch.buf == old(ch.buf) + [v.event])
      && (v.Enqueue? && |old(ch.buf)| >= ch.capacity ==> status == StatusServiceUnavailable && ch.buf == old(ch.buf))
  {
    status := Respond(Decide(h, r, now, mac, parse, encode), ch);
  }

  // ---------------------------------------------------------------------------
  // Properties

  /** A request signed with the body's MAC is accepted. */
  lemma GenuineSignatureAccepted(h: GitHubHandler, body: Bytes, mac: MacFn)
    ensures ValidateSignature(h, body, SignaturePrefix + mac(h.secret, body), mac)
  {
    Text.TrimPrefixOfConcat(SignaturePrefix, mac(h.secret, body));
  }

  /** With a secret configured, any other non-empty signature is rejected. */
  lemma ForgedSignatureRejected(h: GitHubHandler, signature: string, body: Bytes, mac: MacFn)
    requires h.secret != "" && signature != "" && signature != SignaturePrefix + mac(h.secret, body)
    ensures !ValidateSignature(h, body, signature, mac)
  {
  }

  /**
   * A request without a signature passes the signature check even when a
   * secret is configured: it is rejected with 401 never.
   */
  lemma UnsignedRequestsPass(h: GitHubHandler, r: Request, now: int, mac: MacFn, parse: RepoParser, encode: DataEncoder)
    requires Header(r, SignatureHeader) == ""
    ensures Decide(h, r, now, mac, parse, encode) != Reject(StatusUnauthorized)
  {
  }

  /**
   * The extensions mirror the delivery header, the event type and the
   * repository, and the data content type is always application/json,
   * whatever Content-Type the request carried.
   */
  lemma EnqueuedEventExtensions(h: GitHubHandler, r: Request, now: int, mac: MacFn, parse: RepoParser, encode: DataEncoder)
    requires Decide(h, r, now, mac, parse, encode).Enqueue?
    ensures var e := Decide(h, r, now, mac, parse, encode).event;
      && e.extensions.Keys == {"githubdeliveryid", "githubeventtype", "githubrepository"}
      && e.extensions["githubdeliveryid"] == e.id
      && e.extensions["githubeventtype"] == Header(r, EventHeader)
      && e.source == SourcePrefix + e.extensions["githubrepository"]
      && e.dataContentType == ApplicationJson && e.subject.None?
  {
  }

  /**
   * Unlike the receiver revision, there is no delivery-ID fallback: a
   * request without X-GitHub-Delivery is enqueued with an empty ID, which
   * lacks a REQUIRED attribute of the CloudEvents 1.0 specification.
   */
  lemma MissingDeliveryGivesEmptyId(h: GitHubHandler, r: Request, now: int, mac: MacFn, parse: RepoParser, encode: DataEncoder)
    requires Header(r, DeliveryHeader) == "" && Decide(h, r, now, mac, parse, encode).Enqueue?
    ensures Decide(h, r, now, mac, parse, encode).event.id == ""
    ensures !HasRequiredAttributes(Decide(h, r, now, mac, parse, encode).event)
  {
  }
}
