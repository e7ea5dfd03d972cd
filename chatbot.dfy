/** The chat route (`app/routers/chatbot.py`): which checks come first, the
    text handler, and the image handler's three outcomes over the model's
    reply. The model call is an input (`Upstream`), `json.loads` is the
    parameter `loads`, and `str()` of a number, list or dict is the parameter
    `show`. Every handler returns what it answered together with the upstream
    calls it made and the mock bookings it created, in order. */
module Chatbot {
  import opened Http
  import opened PyText
  import opened Json

  /** `ChatRequest`: `message` defaults to "" but a client may send `null`. */
  datatype ChatRequest = ChatRequest(message: Option<string>, image: Option<string>, userId: Option<int>)

  /** The upstream HTTP response: its status code, its raw body, and the
      assistant message content inside it. */
  datatype Upstream = Upstream(statusCode: int, text: string, content: string)

  /** One request sent to the model service. */
  datatype Call = TextCall(message: string) | ImageCall(image: string)

  /** The record the mock `create_booking` builds (and only prints). */
  datatype MockBooking = MockBooking(userId: Option<int>, service: Json, issue: Json, status: string, source: string)

  /** The `{"type": ..., "reply": ...}` body. */
  datatype ChatReply = ChatReply(kind: string, reply: string)

  /** A handled request: the answer or error, the upstream calls made, the bookings created. */
  datatype Chat = Chat(response: Result<ChatReply>, calls: seq<Call>, created: seq<MockBooking>)

  /** `str(v)` for a JSON number, list or object. */
  type Show = Json -> string

  const KeyMissing := HttpError(500, "AI key missing")
  const EmptyMessage := HttpError(400, "Message cannot be empty")
  const RetryMessage := "Unable to analyze the image clearly. Please try another image."
  const Warning := "\U{26A0}\U{FE0F}"

  /** The id the mock `create_booking` always returns. */
  const MockBookingId: nat := 1001

  // ---------------------------------------------------------------------
  // Formatting
  // ---------------------------------------------------------------------

  /** `str(v)` / `f"{v}"` of a decoded value: a string is itself, `None`, `True`
      and `False` are spelt out, anything else is `show(v)`. */
  function PyStr(v: Json, show: Show): (r: string)
    ensures v.JStr? ==> r == v.s
    ensures v == JNull ==> r == "None"
    ensures v.JBool? ==> r == (if v.b then "True" else "False")
    ensures v.JNum? || v.JArr? || v.JObj? ==> r == show(v)
  {
    match v
    case JNull => "None"
    case JBool(b) => if b then "True" else "False"
    case JStr(s) => s
    case _ => show(v)
  }

  /** The lines `[f"{i+1}. {s}" for i, s in enumerate(steps)]`. */
  function NumberedLines(steps: seq<string>): seq<string>
  {
    seq(|steps|, i requires 0 <= i < |steps| => NatToString(i + 1) + ". " + steps[i])
  }

  /** `"\n".join(...)` of the numbered lines. */
  function FormatSteps(steps: seq<string>): (r: string)
    ensures |steps| == 0 ==> r == ""
    ensures |steps| > 0 ==> 3 + |steps[0]| <= |r| && r[..3 + |steps[0]|] == "1. " + steps[0]
  {
    var lines := NumberedLines(steps);
    assert NatToString(1) == "1";
    Join(lines, '\n')
  }

  /** The formatted steps read back: cut at newlines they give one line per step,
      line i starting with the number i+1, a dot and a space, then the step, as
      long as no step contains a newline itself. No steps give the empty string. */
  lemma FormatStepsLines(steps: seq<string>)
    requires forall i :: 0 <= i < |steps| ==> '\n' !in steps[i]
    ensures |steps| == 0 ==> FormatSteps(steps) == ""
    ensures |steps| > 0 ==> |Split(FormatSteps(steps), '\n')| == |steps|
    ensures |steps| > 0 ==> forall i :: 0 <= i < |steps| ==>
              Split(FormatSteps(steps), '\n')[i] == NatToString(i + 1) + ". " + steps[i]
  {
    var lines := NumberedLines(steps);
    if |steps| > 0 {
      forall i | 0 <= i < |lines| ensures '\n' !in lines[i] {
        var n := NatToString(i + 1);
        assert lines[i] == n + ". " + steps[i];
      }
      SplitJoin(lines, '\n');
    }
  }

  /** What `enumerate(ai_data.get("steps", []))` walks over: nothing when the key
      is absent, the items of a list, the one-character strings of a string, the
      keys of an object; `None` when the value cannot be iterated (a TypeError). */
  function StepItems(steps: Option<Json>): (r: Option<seq<Json>>)
    ensures steps.None? ==> r == Some([])
    ensures steps.Some? && steps.value.JArr? ==> r == Some(steps.value.items)
    ensures r.None? <==> steps.Some? && (steps.value.JNull? || steps.value.JBool? || steps.value.JNum?)
  {
    match steps
    case None => Some([])
    case Some(JArr(xs)) => Some(xs)
    case Some(JStr(s)) => Some(seq(|s|, i requires 0 <= i < |s| => JStr([s[i]])))
    case Some(JObj(ms)) => Some(seq(|ms|, i requires 0 <= i < |ms| => JStr(ms[i].key)))
    case Some(_) => None
  }

  function RenderAll(items: seq<Json>, show: Show): (r: seq<string>)
    ensures |r| == |items|
    ensures forall i :: 0 <= i < |items| ==> r[i] == PyStr(items[i], show)
  {
    seq(|items|, i requires 0 <= i < |items| => PyStr(items[i], show))
  }

  /** How the `diy` reply begins: the issue, then the steps heading. */
  function DiyHead(issue: Json, show: Show): string
  {
    "Issue identified: " + PyStr(issue, show) + "\n\n" + "DIY Steps:\n"
  }

  /** How the `diy` reply ends: a blank line and the booking hint. */
  const DiyTail: string := "\n\n" + Warning + " If the issue continues, you can book a professional anytime."

  /** The reply text of the `diy` outcome. */
  function DiyText(issue: Json, steps: seq<Json>, show: Show): (r: string)
    ensures |DiyHead(issue, show)| <= |r| && r[..|DiyHead(issue, show)|] == DiyHead(issue, show)
    ensures |DiyTail| <= |r| && r[|r| - |DiyTail|..] == DiyTail
    ensures r == DiyHead(issue, show) + FormatSteps(RenderAll(steps, show)) + DiyTail
  {
    var head, body := DiyHead(issue, show), FormatSteps(RenderAll(steps, show));
    var r := head + body + DiyTail;
    assert r[..|head|] == head;
    assert r[|r| - |DiyTail|..] == DiyTail;
    r
  }

  /** How the `booking` reply begins. */
  const BookingHead: string := Warning + " The issue appears risky for DIY.\n"
    + "A professional booking has been created.\n"

  /** The reply text of the `booking` outcome. */
  function BookingText(bookingId: nat): (r: string)
    ensures |BookingHead| <= |r| && r[..|BookingHead|] == BookingHead
    ensures |r| == |BookingHead| + 12 + |NatToString(bookingId)|
    ensures r[|r| - |NatToString(bookingId)| - 12..] == "Booking ID: " + NatToString(bookingId)
  {
    var tail := "Booking ID: " + NatToString(bookingId);
    var r := BookingHead + tail;
    assert r[..|BookingHead|] == BookingHead;
    assert r[|r| - |tail|..] == tail;
    r
  }

  /** The mock `create_booking`: builds a confirmed record that came from an image
      and returns the fixed id. */
  function CreateBookingMock(userId: Option<int>, service: Json, issue: Json): (r: (MockBooking, nat))
    ensures r.1 == MockBookingId
    ensures r.0.status == "confirmed" && r.0.source == "image"
    ensures r.0.userId == userId && r.0.service == service && r.0.issue == issue
  {
    (MockBooking(userId, service, issue, "confirmed", "image"), MockBookingId)
  }

  // ---------------------------------------------------------------------
  // Handlers
  // ---------------------------------------------------------------------

  /** `handle_text`: one upstream call; a non-200 answer is a 500 carrying the
      upstream body, otherwise the model's content comes back unchanged. */
  function HandleText(message: string, up: Upstream): (r: Chat)
    ensures r.calls == [TextCall(message)] && r.created == []
    ensures up.statusCode != 200 <==> r.response.Err?
    ensures r.response.Err? ==> r.response.error == HttpError(500, up.text)
    ensures r.response.Ok? ==> r.response.value == ChatReply("text", up.content)
  {
    var calls := [TextCall(message)];
    if up.statusCode != 200 then Chat(Err(HttpError(500, up.text)), calls, [])
    else Chat(Ok(ChatReply("text", up.content)), calls, [])
  }

  /** `handle_image`: one upstream call, then a three-way branch on the decoded
      reply. A reply `json.loads` rejects gives the `error` reply; a reply that
      decodes to something other than an object makes `.get` raise (500); an
      object whose `diy_safe` is exactly `true` gives the `diy` reply (or a 500
      when its `steps` cannot be iterated); any other object creates one mock
      booking and gives the `booking` reply. */
  function HandleImage(image: string, userId: Option<int>, up: Upstream,
                       loads: string -> Option<Json>, show: Show): (r: Chat)
    ensures r.calls == [ImageCall(image)]
    ensures |r.created| <= 1
    ensures up.statusCode != 200 ==> r.response == Err(HttpError(500, up.text)) && r.created == []
    ensures up.statusCode == 200 && loads(up.content).None? ==>
              r.response == Ok(ChatReply("error", RetryMessage)) && r.created == []
    ensures r.created != [] <==> r.response.Ok? && r.response.value.kind == "booking"
    ensures r.response.Ok? && r.response.value.kind == "diy" ==>
              && up.statusCode == 200 && loads(up.content).Some? && loads(up.content).value.JObj?
              && Get(loads(up.content).value.members, "diy_safe") == JBool(true)
    ensures r.response.Ok? ==> r.response.value.kind in {"error", "diy", "booking"}
  {
    var calls := [ImageCall(image)];
    if up.statusCode != 200 then Chat(Err(HttpError(500, up.text)), calls, [])
    else
      match loads(up.content)
      case None => Chat(Ok(ChatReply("error", RetryMessage)), calls, [])
      case Some(data) =>
        if !data.JObj? then Chat(Err(InternalError), calls, [])
        else if Get(data.members, "diy_safe") == JBool(true) then
          match StepItems(Lookup(data.members, "steps"))
          case None => Chat(Err(InternalError), calls, [])
          case Some(steps) =>
            Chat(Ok(ChatReply("diy", DiyText(Get(data.members, "issue"), steps, show))), calls, [])
        else
          var (booking, bookingId) :=
            CreateBookingMock(userId, Get(data.members, "service"), Get(data.members, "issue"));
          Chat(Ok(ChatReply("booking", BookingText(bookingId))), calls, [booking])
  }

  /** `chat_with_bot`: a missing key is a 500 before anything else; a truthy
      image goes to the image handler whatever the message; otherwise a message
      that is blank after `strip()` is a 400 (a `null` message makes `strip`
      raise, a 500), and any other message goes to the text handler. */
  function ChatWithBot(keyPresent: bool, req: ChatRequest, up: Upstream,
                       loads: string -> Option<Json>, show: Show): (r: Chat)
    ensures !keyPresent ==> r == Chat(Err(KeyMissing), [], [])
    ensures keyPresent && TruthyText(req.image) ==>
              r == HandleImage(req.image.value, req.userId, up, loads, show)
    ensures keyPresent && !TruthyText(req.image) && req.message.None? ==>
              r == Chat(Err(InternalError), [], [])
    ensures keyPresent && !TruthyText(req.image) && req.message.Some? ==>
              ((forall i :: 0 <= i < |req.message.value| ==> IsSpace(req.message.value[i]))
               <==> r == Chat(Err(EmptyMessage), [], []))
    ensures keyPresent && !TruthyText(req.image) && req.message.Some?
            && (exists i :: 0 <= i < |req.message.value| && !IsSpace(req.message.value[i])) ==>
              r == HandleText(req.message.value, up)
  {
    if !keyPresent then Chat(Err(KeyMissing), [], [])
    else if TruthyText(req.image) then HandleImage(req.image.value, req.userId, up, loads, show)
    else if req.message.None? then Chat(Err(InternalError), [], [])
    else
      StripEmptyIffBlank(req.message.value);
      if Strip(req.message.value) == "" then Chat(Err(EmptyMessage), [], [])
      else HandleText(req.message.value, up)
  }

  // ---------------------------------------------------------------------
  // Properties of the route as a whole
  // ---------------------------------------------------------------------

  /** An empty-string image is falsy: the request is handled as text, and the
      image is never sent. */
  lemma EmptyImageIsTextMode(req: ChatRequest, up: Upstream, loads: string -> Option<Json>, show: Show)
    requires req.image == Some("") && req.message.Some?
    requires exists i :: 0 <= i < |req.message.value| && !IsSpace(req.message.value[i])
    ensures ChatWithBot(true, req, up, loads, show).calls == [TextCall(req.message.value)]
  {
  }

  /** A non-200 upstream answer is a 500 carrying the upstream body in both
      modes, and creates no booking. */
  lemma UpstreamFailureSurfaces(req: ChatRequest, up: Upstream, loads: string -> Option<Json>, show: Show)
    requires up.statusCode != 200
    requires TruthyText(req.image) || (req.message.Some? && Strip(req.message.value) != "")
    ensures ChatWithBot(true, req, up, loads, show).response == Err(HttpError(500, up.text))
    ensures ChatWithBot(true, req, up, loads, show).created == []
  {
    if !TruthyText(req.image) {
      StripEmptyIffBlank(req.message.value);
    }
  }

  /** Only a `diy_safe` of exactly `true` gives the `diy` reply, and then its text
      lists the steps numbered from 1. */
  lemma DiyReplyListsSteps(image: string, userId: Option<int>, up: Upstream,
                           loads: string -> Option<Json>, show: Show, steps: seq<string>)
    requires up.statusCode == 200 && loads(up.content).Some?
    requires loads(up.content).value.JObj?
    requires Get(loads(up.content).value.members, "diy_safe") == JBool(true)
    requires Lookup(loads(up.content).value.members, "steps") == Some(JArr(seq(|steps|, i requires 0 <= i < |steps| => JStr(steps[i]))))
    ensures HandleImage(image, userId, up, loads, show).response
            == Ok(ChatReply("diy", DiyText(Get(loads(up.content).value.members, "issue"),
                                           seq(|steps|, i requires 0 <= i < |steps| => JStr(steps[i])), show)))
    ensures HandleImage(image, userId, up, loads, show).created == []
  {
    var items := seq(|steps|, i requires 0 <= i < |steps| => JStr(steps[i]));
    assert StepItems(Some(JArr(items))) == Some(items);
  }

  /** A `diy` reply without a `steps` key still answers `diy`: the steps heading
      is followed directly by the closing hint, with no numbered line. */
  lemma DiyReplyWithoutSteps(image: string, userId: Option<int>, up: Upstream,
                             loads: string -> Option<Json>, show: Show)
    requires up.statusCode == 200 && loads(up.content).Some?
    requires loads(up.content).value.JObj?
    requires Get(loads(up.content).value.members, "diy_safe") == JBool(true)
    requires Lookup(loads(up.content).value.members, "steps") == None
    ensures HandleImage(image, userId, up, loads, show).response
            == Ok(ChatReply("diy", DiyHead(Get(loads(up.content).value.members, "issue"), show) + DiyTail))
    ensures HandleImage(image, userId, up, loads, show).created == []
  {
    var issue := Get(loads(up.content).value.members, "issue");
    assert FormatSteps(RenderAll([], show)) == "";
    assert DiyText(issue, [], show) == DiyHead(issue, show) + "" + DiyTail;
  }

  /** Steps that are strings are listed as they are: `str` of a string is the string. */
  lemma StringStepsRenderVerbatim(steps: seq<string>, show: Show)
    ensures RenderAll(seq(|steps|, i requires 0 <= i < |steps| => JStr(steps[i])), show) == steps
  {
  }

  /** Any object whose `diy_safe` is not exactly `true` (false, absent, or a
      non-boolean such as 1 or "true") creates exactly one confirmed booking
      from the image and replies with its id, 1001. */
  lemma RiskyReplyBooks(image: string, userId: Option<int>, up: Upstream,
                        loads: string -> Option<Json>, show: Show)
    requires up.statusCode == 200 && loads(up.content).Some?
    requires loads(up.content).value.JObj?
    requires Get(loads(up.content).value.members, "diy_safe") != JBool(true)
    ensures HandleImage(image, userId, up, loads, show).response == Ok(ChatReply("booking", BookingText(1001)))
    ensures HandleImage(image, userId, up, loads, show).created
            == [MockBooking(userId, Get(loads(up.content).value.members, "service"),
                            Get(loads(up.content).value.members, "issue"), "confirmed", "image")]
  {
  }

  /** The booking reply ends with the mock id written out in decimal. */
  lemma MockBookingIdText()
    ensures NatToString(MockBookingId) == "1001"
    ensures BookingText(MockBookingId)[|BookingText(MockBookingId)| - 16..] == "Booking ID: 1001"
  {
    assert NatToString(1) == "1";
    assert NatToString(10) == "10";
    assert NatToString(100) == "100";
  }

  /** The whole reply is decoded: a reply with prose around the JSON object takes
      the `error` branch and creates nothing. The prose may come before the
      object (after any whitespace it starts with a character that opens no
      JSON value and with a word that is no JSON constant, as `Sure`, `Note` or
      `I think` do) or, with nothing before the object, after it. */
  lemma ProseAroundJsonIsError(image: string, userId: Option<int>, up: Upstream,
                               loads: string -> Option<Json>, show: Show,
                               before: string, obj: string, after: string)
    requires DecodesWholeText(loads)
    requires up.statusCode == 200 && up.content == before + obj + after
    requires loads(obj).Some? && loads(obj).value.JObj?
    requires NotJsonLead(before) || (before == [] && HasNonSpace(after))
    ensures HandleImage(image, userId, up, loads, show).response == Ok(ChatReply("error", RetryMessage))
    ensures HandleImage(image, userId, up, loads, show).created == []
  {
    ProseFailsToDecode(loads, before, obj, after);
  }

  /** Under a decoder that reads the whole text, such prose before an object, or
      non-blank text right after it, makes decoding fail. */
  lemma ProseFailsToDecode(loads: string -> Option<Json>, before: string, obj: string, after: string)
    requires DecodesWholeText(loads)
    requires loads(obj).Some? && loads(obj).value.JObj?
    requires NotJsonLead(before) || (before == [] && HasNonSpace(after))
    ensures loads(before + obj + after) == None
  {
    if before == [] {
      assert before + obj + after == obj + after;
      assert loads(obj + after) == None;
    } else {
      assert before + obj + after == before + (obj + after);
      NotJsonLeadExtends(before, obj + after);
    }
  }

  /** A reply such as `Sure! {"issue": ...} thanks`, an object wrapped in prose,
      is answered with the retry message under any decoder that reads the whole
      text, whatever the object says. */
  lemma SurePrefixIsError(image: string, userId: Option<int>, loads: string -> Option<Json>, show: Show, obj: string)
    requires DecodesWholeText(loads)
    ensures HandleImage(image, userId, Upstream(200, "", "Sure! " + obj + " thanks"), loads, show).response
            == Ok(ChatReply("error", RetryMessage))
  {
    var reply := "Sure! " + obj + " thanks";
    assert reply == "Sure! " + (obj + " thanks");
    SureIsNotJsonLead();
    NotJsonLeadExtends("Sure! ", obj + " thanks");
    assert loads(reply) == None;
  }

  /** `Sure` is not the start of any JSON document. */
  lemma SureIsNotJsonLead()
    ensures NotJsonLead("Sure! ")
  {
    forall w | w in Literals
      ensures Differs("Sure! ", w)
    {
      assert "Sure! "[0] != w[0];
    }
  }
}
