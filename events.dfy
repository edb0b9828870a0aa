/** The inbound event payload of `POST /webhook` and the navigation
    `req.body.entry?.[0]?.changes?.[0]?.value?.messages?.[0]`. Every field is
    optional; an absent field is `None`. */
module Events {
  import opened Wrappers

  datatype Payload = Payload(entry: Option<seq<Entry>>)
  datatype Entry = Entry(changes: Option<seq<Change>>)
  datatype Change = Change(value: Option<Value>)
  datatype Value = Value(messages: Option<seq<Message>>, metadata: Option<Metadata>)
  datatype Metadata = Metadata(phoneNumberId: Option<string>)
  datatype Message = Message(from: Option<string>, text: Option<TextPart>)
  datatype TextPart = TextPart(body: Option<string>)

  /** `xs?.[0]`: the first element of an optional array, if there is one. */
  function First<T>(xs: Option<seq<T>>): Option<T>
  {
    match xs
    case None => None
    case Some(s) => if |s| == 0 then None else Some(s[0])
  }

  /** The `value` node and its first message, when every level is present. */
  function FirstMessage(p: Payload): (r: Option<(Value, Message)>)
  {
    var entry :- First(p.entry);
    var change :- First(entry.changes);
    var value :- change.value;
    var message :- First(value.messages);
    Some((value, message))
  }

  /** What the handler learns from a payload: nothing to act on, a message the
      bot sent itself, or a message to answer. */
  datatype Event = NoMessage | OwnMessage | Incoming(from: Option<string>, text: string)

  /** `message.text?.body || ""`: the text, with a missing or empty body as `""`. */
  function BodyText(m: Message): string
  {
    match m.text
    case None => ""
    case Some(part) => part.body.GetOr("")
  }

  /** The phone number id of a `value` node, `undefined` when missing. */
  function OwnId(v: Value): Option<string>
  {
    match v.metadata
    case None => None
    case Some(md) => md.phoneNumberId
  }

  /** The parse and the self-message guard of the POST handler. */
  function Parse(p: Payload): (e: Event)
  {
    match FirstMessage(p)
    case None => NoMessage
    case Some((value, message)) =>
      if message.from == OwnId(value) then OwnMessage
      else Incoming(message.from, BodyText(message))
  }

  /** The path `entry[0].changes[0].value` leads to `v`, whose `messages[0]` is `m`. */
  ghost predicate MessageAt(p: Payload, v: Value, m: Message)
  {
    p.entry.Some? && |p.entry.value| > 0 &&
    p.entry.value[0].changes.Some? && |p.entry.value[0].changes.value| > 0 &&
    p.entry.value[0].changes.value[0].value == Some(v) &&
    v.messages.Some? && |v.messages.value| > 0 && v.messages.value[0] == m
  }

  /** The parse reports a message exactly when the full path exists; it then
      reports that message's sender and text unless the sender equals the
      phone number id of the same `value` node (both possibly undefined). */
  lemma ParseIffPath(p: Payload)
    ensures Parse(p) == NoMessage <==> forall v, m :: !MessageAt(p, v, m)
    ensures forall v, m :: MessageAt(p, v, m) ==>
      Parse(p) == if m.from == OwnId(v) then OwnMessage else Incoming(m.from, BodyText(m))
  {
    match FirstMessage(p)
    case None =>
      forall v, m ensures !MessageAt(p, v, m) {
        if MessageAt(p, v, m) {
          assert false;
        }
      }
    case Some((value, message)) =>
      assert MessageAt(p, value, message);
  }

  /** Each level that is absent or empty leads to "no message". */
  lemma NoMessageWhenAbsent(p: Payload)
    requires
      || p.entry.None? || |p.entry.value| == 0
      || p.entry.value[0].changes.None? || |p.entry.value[0].changes.value| == 0
      || p.entry.value[0].changes.value[0].value.None?
      || p.entry.value[0].changes.value[0].value.value.messages.None?
      || |p.entry.value[0].changes.value[0].value.value.messages.value| == 0
    ensures Parse(p) == NoMessage
  {
    ParseIffPath(p);
  }

  /** A message whose sender equals the own phone number id is never answered,
      and that includes the case where both are absent. */
  lemma OwnMessageGuard(p: Payload, v: Value, m: Message)
    requires MessageAt(p, v, m)
    requires m.from == OwnId(v)
    ensures Parse(p) == OwnMessage
  {
    ParseIffPath(p);
  }

  /** A message without `text.body` is an incoming message with empty text,
      unless the guard applies. */
  lemma MissingBodyIsEmptyText(p: Payload, v: Value, m: Message)
    requires MessageAt(p, v, m)
    requires m.text.None? || m.text.value.body.None?
    requires m.from != OwnId(v)
    ensures Parse(p) == Incoming(m.from, "")
  {
    ParseIffPath(p);
  }
}
