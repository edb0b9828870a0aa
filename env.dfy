/** The process environment the bridge reads once at start-up. */
module Env {
  import opened Wrappers

  /** `VERIFY_TOKEN`, `WHATSAPP_TOKEN` and `PHONE_NUMBER_ID`; an unset
      variable is `None` (JavaScript's `undefined`). */
  datatype Config = Config(
    verifyToken: Option<string>,
    whatsappToken: Option<string>,
    phoneNumberId: Option<string>)

  /** What `${v}` inside a template literal produces: the string itself, or
      the word `undefined` for an absent value. */
  function JsText(v: Option<string>): string
  {
    match v
    case Some(s) => s
    case None => "undefined"
  }
}

/** The HTTP responses the two webhook routes can give. */
module Http {
  import opened Wrappers

  datatype Response = Response(status: int, body: string)

  /** Express's `res.sendStatus(code)`: the status with its reason phrase as body. */
  function SendStatus(code: int): (r: Response)
    requires code == 200 || code == 403
    ensures r.status == code && |r.body| > 0
  {
    Response(code, if code == 200 then "OK" else "Forbidden")
  }

  /** Express's `res.status(code).send(body)` with a string or `undefined`
      body; `undefined` sends nothing. */
  function SendText(code: int, body: Option<string>): Response
  {
    Response(code, body.GetOr(""))
  }
}
