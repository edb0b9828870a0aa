/** The request `sendReply` posts to the Graph API's messages endpoint. */
module Outbound {
  import opened Wrappers
  import opened Env
  import opened Replies

  /** The JSON body `{messaging_product, to, type, text: {body}}`; a `to` of
      `None` is an undefined field, which JSON serialisation leaves out. */
  datatype MessageBody = MessageBody(messagingProduct: string, to: Option<string>, messageType: string, text: string)

  /** The URL, the two headers and the body of one POST. */
  datatype OutboundRequest = OutboundRequest(url: string, authorization: string, contentType: string, body: MessageBody)

  const GraphBase: string := "https://graph.facebook.com/v22.0/"
  const MessagesPath: string := "/messages"
  const BearerPrefix: string := "Bearer "

  /** The request for sending `replyText` to `to` with the configured credentials. */
  function BuildRequest(cfg: Config, to: Option<string>, replyText: string): (r: OutboundRequest)
  {
    OutboundRequest(
      GraphBase + JsText(cfg.phoneNumberId) + MessagesPath,
      BearerPrefix + JsText(cfg.whatsappToken),
      "application/json",
      MessageBody("whatsapp", to, "text", replyText))
  }

  /** The request `sendReply(to, receivedMsg)` makes: the resolved reply's text
      sent back to `to`. */
  function ReplyRequest(cfg: Config, to: Option<string>, receivedMsg: string): (r: OutboundRequest)
    ensures r.body.text == ReplyText(Resolve(receivedMsg)) && r.body.to == to
  {
    BuildRequest(cfg, to, ReplyText(Resolve(receivedMsg)))
  }

  /** The path segment between the API base and `/messages`, read back from a URL. */
  function SenderSegment(url: string): (r: Option<string>)
    ensures r.Some? ==> url == GraphBase + r.value + MessagesPath
  {
    if |url| >= |GraphBase| + |MessagesPath| && url[..|GraphBase|] == GraphBase
       && url[|url| - |MessagesPath|..] == MessagesPath
    then Some(url[|GraphBase|..|url| - |MessagesPath|])
    else None
  }

  /** The credential of a bearer `Authorization` header. */
  function BearerToken(header: string): (r: Option<string>)
    ensures r.Some? ==> header == BearerPrefix + r.value
  {
    if |header| >= |BearerPrefix| && header[..|BearerPrefix|] == BearerPrefix
    then Some(header[|BearerPrefix|..])
    else None
  }

  /** A built request goes to the configured phone number id's endpoint with
      the configured token as bearer credential (each the word `undefined`
      when unset), and carries a WhatsApp text message with exactly the given
      recipient and body. */
  lemma RequestRoundTrip(cfg: Config, to: Option<string>, replyText: string)
    ensures SenderSegment(BuildRequest(cfg, to, replyText).url) == Some(JsText(cfg.phoneNumberId))
    ensures BearerToken(BuildRequest(cfg, to, replyText).authorization) == Some(JsText(cfg.whatsappToken))
    ensures BuildRequest(cfg, to, replyText).contentType == "application/json"
    ensures BuildRequest(cfg, to, replyText).body == MessageBody("whatsapp", to, "text", replyText)
  {
  }
}
