# WhatsApp webhook bridge: a Dafny model

The bridge in `server.js` serves two routes on `/webhook` for the WhatsApp Cloud API:

- **GET** is the subscription handshake. It echoes `hub.challenge` with status 200 when `hub.mode` is `subscribe` and `hub.verify_token` equals the configured `VERIFY_TOKEN`. Otherwise it answers 403.
- **POST** takes an event payload and looks for `entry[0].changes[0].value.messages[0]`.
  - It ignores payloads without such a message.
  - It ignores a message whose `from` equals `value.metadata.phone_number_id`.
  - Otherwise it picks a reply with first-match rules over the lower-cased text:
    - greeting menu for `hi`/`hello`/`hey`
    - about text for `1`/`about`
    - support text for `2`/`support`
    - help text for `3`/`help`
    - otherwise an echo of the original text
  - It posts the reply to the Graph API with the configured bearer token and phone number id.
  - A failed send is caught and only logged, so every delivery whose send settles, successfully or not, is acknowledged with 200. The exceptions are the 500 path and a send that never settles (see "Left out").

Modules, one per component of the script:

- `Wrappers`: `Option`. `None` stands for JavaScript's `undefined`.
- `Text`: `includes` and `toLowerCase` on code-point strings. `Includes` is proved equal to a reference "occurs at some index" predicate.
- `Env`, `Http`: the three environment values as a read-only `Config`, template-literal interpolation (`JsText`), and Express's `sendStatus` and `send`.
- `Verification`: the handshake.
- `Events`: the payload, with every field optional; the navigation through it, proved equal to a reference path predicate; and the self-message guard.
- `Replies`: the if/else-if chain (`Resolve`), proved equal to the first firing rule of a separate priority table (`Rules`); the five reply texts; and the echo's round trip.
- `Outbound`: the request value `{url, Authorization, Content-Type, body}`, with parsers for the URL segment and the bearer token. The parsers recover the text interpolated from the configuration; an unset value and the literal string `undefined` give the same request.
- `Webhook`: the POST handler as a function (`HandleEvent`), its end-to-end properties, and a `Server` class. The class holds the configuration and the log of send attempts. Its methods model the two route handlers and `sendReply`.

Modelling choices that follow the code:

- Unset environment variables and missing query parameters are `None`.
  - `token === VERIFY_TOKEN` holds when both are `undefined`. So an unset `VERIFY_TOKEN` accepts a `subscribe` request that carries no token (`UnsetSecretAcceptsMissingToken`).
  - An unset `PHONE_NUMBER_ID` or `WHATSAPP_TOKEN` becomes the text `undefined` in the URL or header.
- The self-message guard compares two optional values. A message with no `from`, in a `value` with no phone number id, is therefore never answered.
- The code does not trim the text and does not skip an empty text. A missing `text.body` becomes `""`, gets the echo reply, and is sent.
- The code awaits the send before it answers, and answers 200 whatever the send's outcome. The outcome is a parameter (`delivered`) of `Server.SendReply` and `Server.Receive`. It is recorded in the log and affects nothing else.
- Each delivery of a payload with a message that is not the bot's own attempts one send. A redelivered payload is sent again; nothing deduplicates.
- `server.js` is stored with CRLF line endings. JavaScript template literals turn CRLF into LF, so the reply texts contain `\n` line breaks.

Things the code does not do, which the model therefore does not do either:

- It does not trim the text and does not skip empty texts.
- It does not fall back to `contacts[0].wa_id`.
- It does not classify upstream error codes and makes no mark-as-read call.
- It answers only after the send has settled.

Besides the exact texts `1`, `2` and `3`, the rules also match `about`, `support` and `help` as substrings.

## Model

| member | source | states |
|---|---|---|
| Verification.Verify | server.js:35-41 | an accepted handshake carries exactly the challenge that was offered |
| Verification.HandleVerify | server.js:28-42 | status 200 iff mode is `subscribe` and the token equals `VERIFY_TOKEN` (both possibly undefined); the 200 body is the challenge (empty when absent); otherwise exactly 403 `Forbidden` |
| Verification.RejectionIgnoresChallenge | server.js:40-41 | a rejected handshake's response does not depend on the challenge, so none of it is echoed |
| Verification.AcceptedOnlyWithSecret | server.js:35 | with `VERIFY_TOKEN` set, acceptance implies the token is exactly that secret and the mode is `subscribe` |
| Verification.UnsetSecretAcceptsMissingToken | server.js:16-37 | with `VERIFY_TOKEN` unset, `subscribe` without a token is accepted and echoes the challenge |
| Http.SendStatus | server.js:41 | `sendStatus(code)` yields that status with a non-empty reason phrase as body |
| Events.ParseIffPath | server.js:49-67 | no message iff no `entry[0].changes[0].value.messages[0]` path exists; along an existing path, an own message when `from` equals the own id (both possibly undefined), else that sender and text |
| Events.NoMessageWhenAbsent | server.js:49-56 | an absent or empty `entry`, `changes`, `value` or `messages` gives "no message" |
| Events.OwnMessageGuard | server.js:58-67 | `from` equal to the own phone number id, including both absent, gives the own-message outcome |
| Events.MissingBodyIsEmptyText | server.js:58-59 | a message without `text.body` is an incoming message with text `""` |
| Text.IncludesIffOccurs | server.js:84 | `includes` is true iff the word occurs at some index |
| Text.LowerAppend | server.js:81 | lower-casing distributes over concatenation |
| Text.LowerIdentity | server.js:81 | a string with no upper-case-able code point is its own lower case |
| Text.NoWordInInert | server.js:84-105 | no keyword beginning with a letter occurs in a letterless string |
| Replies.FirstFiring | server.js:84-114 | returns the index of the first firing rule, with no earlier rule firing; none iff no rule fires |
| Replies.ResolveIsFirstMatch | server.js:81-118 | the if/else-if chain gives the reply of the first firing rule of the priority table, else the echo of the original text |
| Replies.Precedence | server.js:84-117 | rule i's reply is chosen iff rule i fires and no earlier rule does; the echo iff no rule fires |
| Replies.GreetingInAnyCase | server.js:81-84 | any text containing `hi`, `hello` or `hey` in any letter case gets the greeting, whatever else it contains |
| Replies.LetterlessText | server.js:92-117 | a text without letters gets the menu text only when exactly `1`, `2` or `3` (no trimming); otherwise its echo |
| Replies.ThisAboutGreets | server.js:84-92 | "This about" gets the greeting, not the about text |
| Replies.HeyThereGreets | server.js:84 | "Hey there" gets the greeting |
| Replies.DigitExamples | server.js:92-117 | "10" and " 1" are echoed; "1" gets the about text |
| Replies.EmptyTextEchoes | server.js:114-117 | the empty text is echoed, not filtered |
| Replies.ReplyNonEmpty | server.js:84-118 | every text gets a non-empty reply |
| Replies.Echoed | server.js:115-117 | a read-back value is what sits between the echo's prefix and suffix |
| Replies.EchoRoundTrip | server.js:115-117 | the echo embeds the original, un-lowered text verbatim, so it can be read back exactly |
| Outbound.ReplyRequest | server.js:80-130 | `sendReply(to, msg)` sends the resolved reply's text to `to` |
| Outbound.SenderSegment | server.js:122 | a read-back segment sits between the Graph API base and `/messages` |
| Outbound.BearerToken | server.js:133 | a read-back token follows `Bearer ` |
| Outbound.RequestRoundTrip | server.js:121-136 | the URL's segment is the configured phone number id and the bearer credential is the configured token (the word `undefined` when unset); JSON content type; body `{whatsapp, to, text, body}` with exactly the given recipient and text |
| Webhook.AcknowledgedAndAnswered | server.js:47-70 | every delivery gets 200 `OK`; a request is sent iff a non-own message exists at the path, and it answers that message's sender and text |
| Webhook.NoMessageNoSend | server.js:49-56 | without a message at the path: 200 and no send |
| Webhook.OwnMessageNoSend | server.js:63-67 | an own message (or both ids absent): 200 and no send |
| Webhook.MissingBodyGetsEcho | server.js:59-70 | a message without a body is answered with the echo of `""` |
| Webhook.HeyThereIsGreeted | server.js:47-70 | a "Hey there" message from a user is answered with one POST of the greeting menu to that user |
| Webhook.Server.constructor | server.js:16-18 | the server starts with the given configuration and no send attempts |
| Webhook.Server.Verify | server.js:28-42 | the GET handler answers as `HandleVerify` prescribes |
| Webhook.Server.SendReply | server.js:80-145 | exactly one attempt is appended, the reply request for `(to, msg)`, whatever its outcome |
| Webhook.Server.Receive | server.js:47-70 | answers `HandleEvent`'s 200 whatever the send's outcome; appends exactly the prescribed attempt, or nothing |

## Left out

- The handler at server.js:1-6 uses `app` before its `const` declaration on line 12. As written, the first statement of the script would stop it at load. The model describes the routes at 28-42 and 47-75 as though that statement were absent.
- The 500 path (server.js:71-73) happens only when a JavaScript type error is thrown. One example is a `text.body` that is a number, so `toLowerCase` is not a function. The payload here is typed: every field is an optional string or record, so that path cannot arise. Non-string JSON values, `null` as distinct from absent, and arrays from repeated query parameters are not modelled.
- Express setup, the health check at server.js:151-153, the port and the listener: transport plumbing.
- dotenv loading: the three settings are a `Config` value given at construction.
- All console logging: it has no effect on responses or sends.
- The axios call itself: only the request value is modelled, with an abstract delivered/failed outcome. JSON serialisation of the body is not modelled; `to` of `None` stands for the field that serialisation drops.
- async/await: the handler is sequential, and it awaits the send before responding, as the code does.
- Webhook.AcknowledgedAndAnswered: assumes every send settles. `axios.post` (server.js:121-137) is called without a timeout and the handler awaits it (server.js:69) before `res.sendStatus(200)` (server.js:70). A Graph API call that never settles leaves the webhook unanswered, which the `delivered` flag of `Server.Receive` cannot express.
- Text.LowerChar: only models how `toLowerCase` can produce ASCII letters: `A`-`Z`, U+0130 and U+212A. Every other code point is kept as it is. Other letters lower to non-ASCII code points, which can neither form a keyword nor equal `1`, `2` or `3`. So the reply chosen is unaffected, and the echo uses the original text anyway.
- Strings are sequences of Unicode code points, not UTF-16 code units; lone surrogates cannot be expressed.
