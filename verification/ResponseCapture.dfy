/** Capturing a response on its way to the client, and replaying it from the cache. */
module ResponseCapture {
  import opened Idempotency

  /** ASGI messages, bodies already decoded. A start message's status defaults to 200;
      `contentType` is the first content-type header, if there is one. */
  datatype Message =
    | Start(status: int, contentType: string)
    | StartUntyped(status: int)
    | Body(text: string)
    | Other

  const BLANK := Response(200, "", "application/json")

  /** What the capture holds after one more message. */
  function Captured(r: Response, m: Message): Response {
    match m
    case Start(status, contentType) => Response(status, r.body, contentType)
    case StartUntyped(status) => r.(status := status)
    case Body(text) => r.(body := r.body + text)
    case Other => r
  }

  function CaptureAll(messages: seq<Message>): Response {
    if messages == [] then BLANK
    else Captured(CaptureAll(messages[..|messages| - 1]), messages[|messages| - 1])
  }

  /** _send_raw */
  function Replay(r: Response): seq<Message> {
    [Start(r.status, r.contentType), Body(r.body)]
  }

  /** The text of the body messages, joined. */
  function BodyText(messages: seq<Message>): string {
    if messages == [] then "" else TextOf(messages[0]) + BodyText(messages[1..])
  }

  function TextOf(m: Message): string {
    if m.Body? then m.text else ""
  }

  lemma {:induction false} BodyTextAppend(messages: seq<Message>, m: Message)
    ensures BodyText(messages + [m]) == BodyText(messages) + TextOf(m)
  {
    if messages == [] {
      assert messages + [m] == [m] && [m][1..] == [];
    } else {
      BodyTextAppend(messages[1..], m);
      assert (messages + [m])[1..] == messages[1..] + [m] && (messages + [m])[0] == messages[0];
      assert TextOf(messages[0]) + (BodyText(messages[1..]) + TextOf(m))
          == TextOf(messages[0]) + BodyText(messages[1..]) + TextOf(m);
    }
  }

  /** The response was started, with or without a content type. */
  predicate Starts(m: Message) {
    m.Start? || m.StartUntyped?
  }

  /** Message k starts the response and no later one does. */
  ghost predicate LastStart(messages: seq<Message>, k: nat)
    requires k < |messages|
  {
    Starts(messages[k]) && forall j :: k < j < |messages| ==> !Starts(messages[j])
  }

  /** Message k names the content type and no later one does. */
  ghost predicate LastTyped(messages: seq<Message>, k: nat)
    requires k < |messages|
  {
    messages[k].Start? && forall j :: k < j < |messages| ==> !messages[j].Start?
  }

  /** The captured body is the text of all body chunks in order, however the response
      was split. The last start message fixes the status, the last one that has a
      content type fixes the content type, and without any the defaults stay. */
  lemma CaptureIsComplete(messages: seq<Message>)
    ensures CaptureAll(messages).body == BodyText(messages)
    ensures forall k :: 0 <= k < |messages| && LastStart(messages, k) ==> CaptureAll(messages).status == messages[k].status
    ensures forall k :: 0 <= k < |messages| && LastTyped(messages, k) ==>
      CaptureAll(messages).contentType == messages[k].contentType
    ensures (forall k :: 0 <= k < |messages| ==> !Starts(messages[k])) ==> CaptureAll(messages).status == 200
    ensures (forall k :: 0 <= k < |messages| ==> !messages[k].Start?) ==>
      CaptureAll(messages).contentType == "application/json"
  {
    CaptureBody(messages);
    forall k | 0 <= k < |messages| && LastStart(messages, k) ensures CaptureAll(messages).status == messages[k].status {
      CaptureStatus(messages, k);
    }
    forall k | 0 <= k < |messages| && LastTyped(messages, k)
      ensures CaptureAll(messages).contentType == messages[k].contentType
    {
      CaptureType(messages, k);
    }
    CaptureDefaults(messages);
  }

  lemma {:induction false} CaptureBody(messages: seq<Message>)
    ensures CaptureAll(messages).body == BodyText(messages)
  {
    if messages != [] {
      var n := |messages| - 1;
      CaptureBody(messages[..n]);
      BodyTextAppend(messages[..n], messages[n]);
      assert messages[..n] + [messages[n]] == messages;
    }
  }

  lemma {:induction false} CaptureStatus(messages: seq<Message>, k: nat)
    requires k < |messages| && LastStart(messages, k)
    ensures CaptureAll(messages).status == messages[k].status
  {
    var n := |messages| - 1;
    if k < n {
      CaptureStatus(messages[..n], k);
    }
  }

  lemma {:induction false} CaptureType(messages: seq<Message>, k: nat)
    requires k < |messages| && LastTyped(messages, k)
    ensures CaptureAll(messages).contentType == messages[k].contentType
  {
    var n := |messages| - 1;
    if k < n {
      CaptureType(messages[..n], k);
    }
  }

  lemma {:induction false} CaptureDefaults(messages: seq<Message>)
    ensures (forall k :: 0 <= k < |messages| ==> !Starts(messages[k])) ==> CaptureAll(messages).status == BLANK.status
    ensures (forall k :: 0 <= k < |messages| ==> !messages[k].Start?) ==>
      CaptureAll(messages).contentType == BLANK.contentType
  {
    if messages != [] {
      CaptureDefaults(messages[..|messages| - 1]);
    }
  }

  /** Replaying a captured response and capturing the replay gives the same response,
      so what a replayed client receives would be cached unchanged. */
  lemma ReplayRoundTrip(r: Response)
    ensures CaptureAll(Replay(r)) == r
  {
    var ms := Replay(r);
    assert ms[..1][..0] == [];
    assert CaptureAll(ms[..1]) == Response(r.status, "", r.contentType);
    assert "" + r.body == r.body;
  }

  class Capture {
    var statusCode: int
    var contentType: string
    var bodyText: string

    /** Messages passed on to the client, in order. */
    var sent: seq<Message>

    /** What has been captured is what has been sent. */
    ghost predicate Valid()
      reads this
    {
      Response(statusCode, bodyText, contentType) == CaptureAll(sent)
    }

    constructor ()
      ensures Valid() && sent == []
    {
      statusCode, contentType, bodyText := 200, "application/json", "";
      sent := [];
    }

    method Call(message: Message)
      requires Valid()
      modifies this
      ensures Valid() && sent == old(sent) + [message]
    {
      match message {
        case Start(status, kind) =>
          statusCode, contentType := status, kind;
        case StartUntyped(status) =>
          statusCode := status;
        case Body(text) =>
          bodyText := bodyText + text;
        case Other =>
      }
      assert (sent + [message])[..|sent|] == sent;
      sent := sent + [message];
    }
  }
}
