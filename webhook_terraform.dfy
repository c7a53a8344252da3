/**
 * The Terraform Cloud webhook source of internal/source: a missing signature
 * is refused up front when a secret is configured, the signature is the bare
 * hex HMAC-SHA512 of the body, and the run notification becomes a CloudEvent.
 */
module WebhookTerraform {
  import opened Wrappers
  import opened Types
  import opened Http
  import opened CloudEvents
  import Text
  import Channels

  const SignatureHeader: string := "X-TFE-Notification-Signature"
  const IdPrefix: string := "tfc-"
  const SourcePrefix: string := "app.terraform.io/"
  const RunEventType: string := "com.hashicorp.terraform.run"

  /** The handler's mount path and webhook secret. */
  datatype TerraformCloudHandler = TerraformCloudHandler(path: string, secret: string)

  /** The lower-case hex HMAC-SHA512 of a body under a secret. */
  type MacFn = (string, Bytes) -> string

  /** The fields of the notification payload the handler reads; absent fields are empty. */
  datatype TfPayload = TfPayload(payloadVersion: int, workspaceName: string, runUrl: string, organizationName: string)

  /** json.Unmarshal of the body: None when it is not JSON or a field has the wrong type. */
  type PayloadParser = Bytes -> Option<TfPayload>

  /** SetData's encoding of the raw JSON body; None when the SDK reports an error. */
  type DataEncoder = Bytes -> Option<Bytes>

  /** validateSignature: accepts when there is no secret or no signature, otherwise exactly the body's MAC, no prefix. */
  function ValidateSignature(h: TerraformCloudHandler, body: Bytes, signature: string, mac: MacFn): (ok: bool)
    ensures h.secret == "" || signature == "" ==> ok
    ensures h.secret != "" && signature != "" ==> (ok <==> signature == mac(h.secret, body))
  {
    h.secret == "" || signature == "" || signature == mac(h.secret, body)
  }

  /** "tfc-" and the receive time in nanoseconds. */
  function RunEventId(now: int): (id: string)
    ensures Text.HasPrefix(id, IdPrefix)
    ensures Text.ParseInt(Text.TrimPrefix(id, IdPrefix)) == Some(now)
  {
    Text.TrimPrefixOfConcat(IdPrefix, Text.IntToString(now));
    Text.ParseIntToString(now);
    IdPrefix + Text.IntToString(now)
  }

  function BuildEvent(now: int, p: TfPayload, data: Bytes): (ev: CloudEvent)
    ensures HasRequiredAttributes(ev)
    ensures Text.HasPrefix(ev.id, IdPrefix) && Text.ParseInt(Text.TrimPrefix(ev.id, IdPrefix)) == Some(now)
    ensures ev.time == Some(now) && ev.eventType == RunEventType
    ensures Text.HasPrefix(ev.source, SourcePrefix)
    ensures Text.TrimPrefix(ev.source, SourcePrefix) == p.organizationName + "/" + p.workspaceName
    ensures ev.dataContentType == ApplicationJson && ev.data == data && ev.subject.None?
    ensures ev.extensions.Keys == {"tfworkspace", "tforganization", "tfrunurl"}
    ensures ev.extensions["tfworkspace"] == p.workspaceName
    ensures ev.extensions["tforganization"] == p.organizationName
    ensures ev.extensions["tfrunurl"] == p.runUrl
  {
    Text.TrimPrefixOfConcat(SourcePrefix, p.organizationName + "/" + p.workspaceName);
    assert SourcePrefix + p.organizationName + "/" + p.workspaceName == SourcePrefix + (p.organizationName + "/" + p.workspaceName);
    var e := NewEvent();
    e.(id := RunEventId(now),
       source := SourcePrefix + p.organizationName + "/" + p.workspaceName,
       eventType := RunEventType,
       time := Some(now),
       specVersion := SpecVersionV1,
       dataContentType := ApplicationJson,
       data := data,
       extensions := map["tfworkspace" := p.workspaceName,
                         "tforganization" := p.organizationName,
                         "tfrunurl" := p.runUrl])
  }

  /**
   * The handler up to the enqueue: 405 for a method other than POST, 400 for
   * a missing signature when a secret is set (before the body is read), 400
   * when the body cannot be read, 401 for a wrong signature, 400 when the
   * payload does not parse, 500 when SetData fails, otherwise the event.
   */
  function Decide(h: TerraformCloudHandler, r: Request, now: int, mac: MacFn, parse: PayloadParser, encode: DataEncoder): (v: Verdict<CloudEvent>)
    ensures v == Reject(StatusMethodNotAllowed) <==> r.verb != MethodPost
    ensures r.verb == MethodPost && Header(r, SignatureHeader) == "" && h.secret != "" ==> v == Reject(StatusBadRequest)
    ensures v == Reject(StatusUnauthorized) <==>
      && r.verb == MethodPost && !(Header(r, SignatureHeader) == "" && h.secret != "") && r.body.Some?
      && !ValidateSignature(h, r.body.value, Header(r, SignatureHeader), mac)
    ensures v == Reject(StatusInternalServerError) <==>
      && r.verb == MethodPost && !(Header(r, SignatureHeader) == "" && h.secret != "") && r.body.Some?
      && ValidateSignature(h, r.body.value, Header(r, SignatureHeader), mac)
      && parse(r.body.value).Some? && encode(r.body.value).None?
    ensures v.Enqueue? <==>
      && r.verb == MethodPost && !(Header(r, SignatureHeader) == "" && h.secret != "") && r.body.Some?
      && ValidateSignature(h, r.body.value, Header(r, SignatureHeader), mac)
      && parse(r.body.value).Some? && encode(r.body.value).Some?
    ensures v.Reject? ==> v.status in {StatusBadRequest, StatusUnauthorized, StatusMethodNotAllowed, StatusInternalServerError}
    ensures v.Enqueue? ==>
      var p := parse(r.body.value).value;
      && v.event.id == RunEventId(now)
      && v.event.source == SourcePrefix + p.organizationName + "/" + p.workspaceName
      && v.event.eventType == RunEventType
      && v.event.time == Some(now)
      && v.event.data == encode(r.body.value).value
      && v.event.extensions == map["tfworkspace" := p.workspaceName, "tforganization" := p.organizationName, "tfrunurl" := p.runUrl]
  {
    if r.verb != MethodPost then Reject(StatusMethodNotAllowed)
    else
      var signature := Header(r, SignatureHeader);
      if signature == "" && h.secret != "" then Reject(StatusBadRequest)
      else if r.body.None? then Reject(StatusBadRequest)
      else
        var body := r.body.value;
        if !ValidateSignature(h, body, signature, mac) then Reject(StatusUnauthorized)
        else match parse(body)
          case None => Reject(StatusBadRequest)
          case Some(p) =>
            match encode(body)
            case None => Reject(StatusInternalServerError)
            case Some(data) => Enqueue(BuildEvent(now, p, data))
  }

  /** The handler CreateHandler returns: the checks, then a non-blocking send answered with 202 or 503. */
  method Handle(h: TerraformCloudHandler, r: Request, now: int, mac: MacFn, parse: PayloadParser, encode: DataEncoder,
                ch: Channels.Channel<CloudEvent>)
    returns (status: int)
    requires ch.Valid() && !ch.closed
    modifies ch
    ensures ch.Valid() && !ch.closed
    ensures var v := Decide(h, r, now, mac, parse, encode);
      && (v.Reject? ==> status == v.status && ch.buf == old(ch.buf))
      && (v.Enqueue? && |old(ch.buf)| < ch.capacity ==> status == StatusAccepted && ch.buf == old(ch.buf) + [v.event])
      && (v.Enqueue? && |old(ch.buf)| >= ch.capacity ==> status == StatusServiceUnavailable && ch.buf == old(ch.buf))
  {
    status := Respond(Decide(h, r, now, mac, parse, encode), ch);
  }

  // ---------------------------------------------------------------------------
  // Properties

  /**
   * With a secret configured, the empty-signature skip in validateSignature
   * is unreachable: every request that gets past the signature check, and
   * so every enqueued event, carried exactly the body's MAC.
   */
  lemma MacAlwaysComparedWithSecret(h: TerraformCloudHandler, r: Request, now: int, mac: MacFn, parse: PayloadParser, encode: DataEncoder)
    requires h.secret != "" && r.body.Some?
    requires Decide(h, r, now, mac, parse, encode).Enqueue? || Decide(h, r, now, mac, parse, encode) == Reject(StatusInternalServerError)
    ensures Header(r, SignatureHeader) == mac(h.secret, r.body.value)
  {
  }

  /** Without a secret no signature is checked: no request is refused with 401. */
  lemma NoSecretNoSignatureCheck(h: TerraformCloudHandler, r: Request, now: int, mac: MacFn, parse: PayloadParser, encode: DataEncoder)
    requires h.secret == ""
    ensures Decide(h, r, now, mac, parse, encode) != Reject(StatusUnauthorized)
  {
  }

  /** Every enqueued run event carries the REQUIRED attributes of the CloudEvents 1.0 specification. */
  lemma EnqueuedEventHasRequiredAttributes(h: TerraformCloudHandler, r: Request, now: int, mac: MacFn, parse: PayloadParser, encode: DataEncoder)
    requires Decide(h, r, now, mac, parse, encode).Enqueue?
    ensures HasRequiredAttributes(Decide(h, r, now, mac, parse, encode).event)
  {
  }

  /** Run events received at different times get different IDs. */
  lemma RunEventIdsDistinct(t1: int, t2: int)
    requires t1 != t2
    ensures RunEventId(t1) != RunEventId(t2)
  {
  }
}
