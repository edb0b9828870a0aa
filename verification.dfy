/** The subscription handshake of `GET /webhook`. */
module Verification {
  import opened Wrappers
  import opened Env
  import opened Http

  /** The outcome of the handshake: the challenge to echo, or a refusal. */
  datatype Handshake = Accepted(challenge: Option<string>) | Rejected

  /** `mode === "subscribe" && token === VERIFY_TOKEN`. Both sides of the
      comparison may be `undefined`, and two `undefined`s are equal. */
  function Verify(cfg: Config, mode: Option<string>, token: Option<string>, challenge: Option<string>): (h: Handshake)
    ensures h.Accepted? ==> h.challenge == challenge
  {
    if mode == Some("subscribe") && token == cfg.verifyToken then Accepted(challenge)
    else Rejected
  }

  /** The response the route sends for a handshake outcome. */
  function Answer(h: Handshake): (r: Response)
    ensures r.status == 200 || r.status == 403
  {
    match h
    case Accepted(challenge) => SendText(200, challenge)
    case Rejected => SendStatus(403)
  }

  /** The GET `/webhook` route: 200 with the challenge as body exactly when
      the mode is `subscribe` and the token is the configured one, and 403
      otherwise, with a body that carries no part of the challenge. */
  function HandleVerify(cfg: Config, mode: Option<string>, token: Option<string>, challenge: Option<string>): (r: Response)
    ensures r.status == 200 <==> mode == Some("subscribe") && token == cfg.verifyToken
    ensures r.status == 200 ==> r.body == challenge.GetOr("")
    ensures r.status != 200 ==> r == Response(403, "Forbidden")
  {
    Answer(Verify(cfg, mode, token, challenge))
  }

  /** A refusal does not depend on the challenge that was offered. */
  lemma RejectionIgnoresChallenge(cfg: Config, mode: Option<string>, token: Option<string>, c1: Option<string>, c2: Option<string>)
    requires HandleVerify(cfg, mode, token, c1).status != 200
    ensures HandleVerify(cfg, mode, token, c2) == HandleVerify(cfg, mode, token, c1)
  {
  }

  /** With a configured secret, only that exact secret is accepted. */
  lemma AcceptedOnlyWithSecret(cfg: Config, mode: Option<string>, token: Option<string>, challenge: Option<string>)
    requires cfg.verifyToken.Some?
    requires HandleVerify(cfg, mode, token, challenge).status == 200
    ensures token == Some(cfg.verifyToken.value) && mode == Some("subscribe")
  {
  }

  /** When `VERIFY_TOKEN` is unset, a `subscribe` request that carries no
      `hub.verify_token` at all is accepted, since `undefined === undefined`. */
  lemma UnsetSecretAcceptsMissingToken(cfg: Config, challenge: Option<string>)
    requires cfg.verifyToken.None?
    ensures HandleVerify(cfg, Some("subscribe"), None, challenge) == SendText(200, challenge)
  {
  }
}
