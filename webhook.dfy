/** The two `/webhook` routes: the handshake and the event handler that ties
    parsing, reply selection and sending together. */
module Webhook {
  import opened Wrappers
  import opened Env
  import opened Http
  import opened Verification
  import opened Events
  import opened Replies
  import opened Outbound

  /** What one POST delivery leads to: the response, and the request sent, if any. */
  datatype PostOutcome = PostOutcome(response: Response, request: Option<OutboundRequest>)

  /** The POST `/webhook` handler as a function of the configuration and the payload. */
  function HandleEvent(cfg: Config, p: Payload): (o: PostOutcome)
  {
    match Parse(p)
    case Incoming(from, text) => PostOutcome(SendStatus(200), Some(ReplyRequest(cfg, from, text)))
    case _ => PostOutcome(SendStatus(200), None)
  }

  /** Every delivery is acknowledged with 200, and a request is sent exactly
      when the payload holds a message that is not the bot's own; it answers
      that message's sender. */
  lemma AcknowledgedAndAnswered(cfg: Config, p: Payload)
    ensures HandleEvent(cfg, p).response == Response(200, "OK")
    ensures HandleEvent(cfg, p).request.Some? <==>
      exists v, m :: MessageAt(p, v, m) && m.from != OwnId(v)
    ensures forall v, m :: MessageAt(p, v, m) && m.from != OwnId(v) ==>
      HandleEvent(cfg, p).request == Some(ReplyRequest(cfg, m.from, BodyText(m)))
  {
    ParseIffPath(p);
    if Parse(p).Incoming? {
      var v, m := FirstMessage(p).value.0, FirstMessage(p).value.1;
      assert MessageAt(p, v, m);
    }
  }

  /** A payload without a message at `entry[0].changes[0].value.messages[0]`
      (a status callback, say) gets 200 and nothing is sent. */
  lemma NoMessageNoSend(cfg: Config, p: Payload)
    requires forall v, m :: !MessageAt(p, v, m)
    ensures HandleEvent(cfg, p) == PostOutcome(Response(200, "OK"), None)
  {
    ParseIffPath(p);
  }

  /** A message from the bot's own phone number id, or one where both the
      sender and the id are missing, gets 200 and nothing is sent. */
  lemma OwnMessageNoSend(cfg: Config, p: Payload, v: Value, m: Message)
    requires MessageAt(p, v, m)
    requires m.from == OwnId(v)
    ensures HandleEvent(cfg, p) == PostOutcome(Response(200, "OK"), None)
  {
    OwnMessageGuard(p, v, m);
  }

  /** A message without `text.body` is still answered, with the echo of the
      empty text. */
  lemma MissingBodyGetsEcho(cfg: Config, p: Payload, v: Value, m: Message)
    requires MessageAt(p, v, m)
    requires m.text.None? || m.text.value.body.None?
    requires m.from != OwnId(v)
    ensures HandleEvent(cfg, p).request.Some?
    ensures HandleEvent(cfg, p).request.value.body.text == EchoPrefix + EchoSuffix
  {
    MissingBodyIsEmptyText(p, v, m);
    EmptyTextEchoes();
  }

  /** A greeting from a user: one POST of the menu, to that user, at the
      configured endpoint. */
  lemma HeyThereIsGreeted(cfg: Config, user: string)
    requires cfg.phoneNumberId.Some? && cfg.phoneNumberId.value != user
    ensures
      var m := Message(Some(user), Some(TextPart(Some("Hey there"))));
      var v := Value(Some([m]), Some(Metadata(cfg.phoneNumberId)));
      var p := Payload(Some([Entry(Some([Change(Some(v))]))]));
      HandleEvent(cfg, p) == PostOutcome(Response(200, "OK"),
        Some(BuildRequest(cfg, Some(user), ReplyText(Greeting))))
  {
    var m := Message(Some(user), Some(TextPart(Some("Hey there"))));
    var v := Value(Some([m]), Some(Metadata(cfg.phoneNumberId)));
    var p := Payload(Some([Entry(Some([Change(Some(v))]))]));
    assert MessageAt(p, v, m);
    ParseIffPath(p);
    HeyThereGreets();
  }

  /** One send attempt: the request, and whether the platform accepted it. */
  datatype SendAttempt = SendAttempt(request: OutboundRequest, delivered: bool)

  /** The running bridge: read-only configuration and the log of every POST
      it has attempted towards the platform. */
  class Server {
    const config: Config
    var attempts: seq<SendAttempt>

    constructor (cfg: Config)
      ensures config == cfg && attempts == []
    {
      config := cfg;
      attempts := [];
    }

    /** GET `/webhook`. */
    method Verify(mode: Option<string>, token: Option<string>, challenge: Option<string>) returns (res: Response)
      ensures res == HandleVerify(config, mode, token, challenge)
    {
      if mode == Some("subscribe") && token == config.verifyToken {
        return SendText(200, challenge);
      }
      return SendStatus(403);
    }

    /** `sendReply(to, receivedMsg)`: exactly one POST is attempted; whether
        the platform accepts it (`delivered`) is not known to the caller, since
        a failure is caught and only logged. */
    method SendReply(to: Option<string>, receivedMsg: string, delivered: bool)
      modifies this
      ensures attempts == old(attempts) + [SendAttempt(ReplyRequest(config, to, receivedMsg), delivered)]
    {
      var replyText := ReplyText(Resolve(receivedMsg));
      var request := BuildRequest(config, to, replyText);
      attempts := attempts + [SendAttempt(request, delivered)];
    }

    /** POST `/webhook`: the response is 200 whatever the send's outcome, and
        at most one attempt is logged, the request `HandleEvent` prescribes.
        Delivering the same payload again attempts the send again. */
    method Receive(p: Payload, delivered: bool) returns (res: Response)
      modifies this
      ensures res == HandleEvent(config, p).response
      ensures attempts == old(attempts) +
        match HandleEvent(config, p).request
        case None => []
        case Some(r) => [SendAttempt(r, delivered)]
    {
      var first := FirstMessage(p);
      if first.None? {
        return SendStatus(200);
      }
      var (value, message) := first.value;
      var from := message.from;
      var text := BodyText(message);
      var myPhoneId := OwnId(value);
      if from == myPhoneId {
        return SendStatus(200);
      }
      SendReply(from, text, delivered);
      res := SendStatus(200);
    }
  }
}
