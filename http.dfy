/**
 * The HTTP side of the handlers: the JSON bodies they answer with, the
 * exchange a request gives rise to (the calls made to the platform, in order,
 * and the response), the OPTIONS/POST gate of the `api/` handlers, the
 * Bearer-header check, and how an `api/` handler answers a failed call.
 */
module Http {
  import opened Js
  import opened Boulevard

  /** One entry of the availability calendar sent to the frontend. */
  datatype SlotEntry = SlotEntry(id: string, startTime: string)

  /** The JSON body of a response. */
  datatype Body =
    | NoBody
    | Error(error: string)
    | ErrorDetails(error: string, details: Failure)
    | ClientFound(client: Option<Node>)
    | TokenIssued(token: string)
    | Appointments(appointments: seq<Node>)
    | MembershipFound(membership: Option<Node>)
    | CartOpened(cartId: string, cart: Node)
    | Times(times: seq<Node>)
    | BookingDone(booking: Option<Node>)
    | AvailabilityMap(availability: map<string, seq<SlotEntry>>)
    | BookingCreated(success: bool, appointment: Option<Node>, message: string)

  datatype Response = Response(status: int, body: Body)

  /** The calls a request made to the platform, in order, and the response it got. */
  datatype Exchange = Exchange(calls: seq<Call>, response: Response)

  const InternalError := Response(500, Error("Internal server error"))

  /** The method check every `api/` handler starts with: OPTIONS is answered
      with an empty 200, anything but POST with 405, and only POST goes on. */
  function MethodGate(verb: string): (r: Option<Response>)
    ensures r.None? <==> verb == "POST"
    ensures verb == "OPTIONS" ==> r == Some(Response(200, NoBody))
    ensures verb != "OPTIONS" && verb != "POST" ==> r == Some(Response(405, Error("Method not allowed")))
  {
    if verb == "OPTIONS" then Some(Response(200, NoBody))
    else if verb != "POST" then Some(Response(405, Error("Method not allowed")))
    else None
  }

  const BearerPrefix := "Bearer "

  /** The client token of an `Authorization: Bearer <token>` header:
      `authHeader.replace('Bearer ', '')` once the header is known to be
      present and to start with `'Bearer '`; None where the handler answers 401. */
  function BearerToken(header: Option<string>): (r: Option<string>)
    ensures r.Some? <==> header.Some? && StartsWith(header.value, BearerPrefix)
    ensures r.Some? ==> header.value == BearerPrefix + r.value
  {
    if Truthy(header) && StartsWith(header.value, BearerPrefix) then
      ReplacePrefix(header.value, BearerPrefix);
      Some(ReplaceFirst(header.value, BearerPrefix, ""))
    else None
  }

  const Unauthorized := Response(401, Error("Authorization token required"))

  /** How an `api/` handler answers a reply before looking at its data: a
      rejected fetch (or unparsable body) is caught as a 500, a non-empty
      `errors` list gives 400 with the first message; None lets it go on.
      The HTTP status of the answer is not looked at. */
  function ReplyFailure(reply: Reply): (r: Option<Response>)
    ensures reply.Rejected? ==> r == Some(InternalError)
    ensures reply.Answer? && |reply.errors| > 0 ==> r == Some(Response(400, Error(reply.errors[0])))
    ensures r.None? <==> reply.Answer? && |reply.errors| == 0
  {
    match reply
    case Rejected(_) => Some(InternalError)
    case Answer(_, _, _, errors, _) =>
      if |errors| > 0 then Some(Response(400, Error(errors[0]))) else None
  }
}
