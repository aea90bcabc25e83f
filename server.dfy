/**
 * The Express server: its two helpers for calling the platform, the client
 * lookup and token routes, and the booking route that dispatches on
 * `operation`. Each route is a function of the request, the configuration
 * and the platform's replies (`upstream`), giving the calls made and the
 * response sent.
 */
module Server {
  import opened Js
  import opened Encoding
  import opened Boulevard
  import opened Http
  import ClientToken

  // ----- calling the platform -----

  /** The Authorization header of `callBoulevardClientAPI`: the API key with
      the client token when one is given, the API key alone otherwise. */
  function ClientAuthHeader(config: Config, token: Option<string>): (h: string)
    ensures StartsWith(h, "Basic ")
    ensures Base64Decode(h[6..]) == Some(Utf8Encode(config.apiKey) + [':' as int]
              + (if Truthy(token) then Utf8Encode(token.value) else []))
    ensures Truthy(token) ==> h == BasicAuth(config.apiKey, token.value)
    ensures !Truthy(token) ==> h == KeyOnlyAuth(config.apiKey)
  {
    if Truthy(token) then
      BasicAuthDecodes(config.apiKey, token.value);
      BasicAuth(config.apiKey, token.value)
    else
      BasicAuthDecodes(config.apiKey, "");
      BasicAuth(config.apiKey, "")
  }

  /** What `callBoulevardAdminAPI` / `callBoulevardClientAPI` return or throw
      for a reply: a rejected fetch rethrows, a non-2xx status throws
      `HTTP <status>: <statusText>`, a non-empty `errors` throws its first
      message, and otherwise `data.data` is returned. */
  function Invoke(reply: Reply): (r: Result<Data>)
    ensures reply.Rejected? ==> r == Thrown(Message(reply.message))
    ensures reply.Answer? && !reply.ok ==>
              r == Thrown(Message("HTTP " + IntToString(reply.status) + ": " + reply.statusText))
    ensures reply.Answer? && reply.ok && |reply.errors| > 0 ==> r == Thrown(Message(reply.errors[0]))
    ensures r.Ok? <==> reply.Answer? && reply.ok && |reply.errors| == 0
    ensures r.Ok? ==> r.value == reply.data
  {
    match reply
    case Rejected(m) => Thrown(Message(m))
    case Answer(ok, status, statusText, errors, data) =>
      if !ok then Thrown(Message("HTTP " + IntToString(status) + ": " + statusText))
      else if |errors| > 0 then Thrown(Message(errors[0]))
      else Ok(data)
  }

  /** The 500 answer of a route's `catch` block. */
  function CaughtFailure(summary: string, f: Failure): Response {
    Response(500, ErrorDetails(summary, f))
  }

  // ----- 1. client lookup -----

  /** The search string the route builds, case by case. */
  function SearchQuery(email: Option<string>, phone: Option<string>): string {
    if Truthy(email) && Truthy(phone) then EmailClause(email.value) + " OR " + PhoneClause(phone.value)
    else if Truthy(email) then EmailClause(email.value)
    else if Truthy(phone) then PhoneClause(phone.value)
    else ""
  }

  /** The route's `let searchQuery = ''; if (email) searchQuery += ...; if (phone) searchQuery += ...`. */
  method BuildSearchQuery(email: Option<string>, phone: Option<string>) returns (searchQuery: string)
    ensures searchQuery == SearchQuery(email, phone)
  {
    searchQuery := "";
    if Truthy(email) {
      searchQuery := searchQuery + EmailClause(email.value);
    }
    if Truthy(phone) {
      searchQuery := searchQuery + (if Truthy(email) then " OR " else "") + PhoneClause(phone.value);
    }
  }

  /** The search names the email first when there is one and the phone last
      when there is one; it never starts with the " OR " separator. */
  lemma SearchQueryShape(email: Option<string>, phone: Option<string>)
    ensures Truthy(email) ==> StartsWith(SearchQuery(email, phone), EmailClause(email.value))
    ensures Truthy(phone) ==> var q := SearchQuery(email, phone);
              |PhoneClause(phone.value)| <= |q| && q[|q| - |PhoneClause(phone.value)|..] == PhoneClause(phone.value)
    ensures !StartsWith(SearchQuery(email, phone), " OR ")
    ensures SearchQuery(email, phone) == "" <==> !Truthy(email) && !Truthy(phone)
  {
    var q := SearchQuery(email, phone);
    if Truthy(email) {
      assert q[..|EmailClause(email.value)|] == EmailClause(email.value);
      assert q[0] == 'e';
    } else if Truthy(phone) {
      assert q[0] == 'm';
    }
    if Truthy(phone) {
      var p := PhoneClause(phone.value);
      assert q[|q| - |p|..] == p;
    }
  }

  /** The response of the lookup route to the platform's reply. */
  function LookupAnswer(reply: Reply): (r: Response)
    ensures r.status == 200 <==> Invoke(reply).Ok? && Invoke(reply).value.ClientsData?
    ensures r.status == 200 ==> r.body == ClientFound(FirstNode(reply.data.clients))
    ensures r.status != 200 ==> r.status == 500 && r.body.ErrorDetails? && r.body.error == "Client lookup failed"
    ensures Invoke(reply).Thrown? ==> r.body.details == Invoke(reply).failure
    ensures Invoke(reply).Ok? && !Invoke(reply).value.ClientsData? ==> r == CaughtFailure("Client lookup failed", TypeError)
  {
    match Invoke(reply)
    case Thrown(f) => CaughtFailure("Client lookup failed", f)
    case Ok(ClientsData(clients)) => Response(200, ClientFound(FirstNode(clients)))
    case Ok(_) => CaughtFailure("Client lookup failed", TypeError)
  }

  /** `POST /api/lookup-client`. */
  function LookupClientRoute(config: Config, email: Option<string>, phone: Option<string>,
                             upstream: Call -> Reply): (ex: Exchange)
    ensures !Truthy(email) && !Truthy(phone) ==>
              ex == Exchange([], Response(400, Error("Email or phone required")))
    ensures Truthy(email) || Truthy(phone) ==>
              ex.calls == [Call(AdminApi, KeyOnlyAuth(config.apiKey), FindClient(SearchQuery(email, phone)))]
              && ex.response == LookupAnswer(upstream(ex.calls[0]))
  {
    if !Truthy(email) && !Truthy(phone) then
      Exchange([], Response(400, Error("Email or phone required")))
    else
      var call := Call(AdminApi, KeyOnlyAuth(config.apiKey), FindClient(SearchQuery(email, phone)));
      Exchange([call], LookupAnswer(upstream(call)))
  }

  // ----- 2. token generation -----

  /** `POST /api/generate-token` at clock reading `nowMs`; it makes no call. */
  function GenerateTokenRoute(config: Config, crypto: ClientToken.Crypto, clientId: Option<string>,
                              nowMs: int): (r: Response)
    ensures !Truthy(clientId) ==> r == Response(400, Error("Client ID required"))
    ensures Truthy(clientId) ==> r.status == 200 && r.body.TokenIssued?
    ensures Truthy(clientId) ==>
              |r.body.token| >= 44 && r.body.token[44..] == ClientToken.Payload(config.businessId, clientId.value, nowMs)
    ensures Truthy(clientId) ==> r.body.token == ClientToken.GenerateClientToken(config, crypto, clientId.value, nowMs)
    ensures Truthy(clientId) ==>
              StartsWith(r.body.token, ClientToken.Signature(config, crypto, ClientToken.Payload(config.businessId, clientId.value, nowMs)))
  {
    if !Truthy(clientId) then Response(400, Error("Client ID required"))
    else Response(200, TokenIssued(ClientToken.GenerateClientToken(config, crypto, clientId.value, nowMs)))
  }

  // ----- 3. booking operations -----

  const LocationPrefix := "urn:blvd:Location:"

  /** `locationId.startsWith('urn:blvd:Location:') ? locationId : 'urn:blvd:Location:' + locationId`. */
  function LocationUrn(locationId: string): (urn: string)
    ensures StartsWith(urn, LocationPrefix)
    ensures StartsWith(locationId, LocationPrefix) ==> urn == locationId
    ensures !StartsWith(locationId, LocationPrefix) ==> urn == LocationPrefix + locationId
  {
    if StartsWith(locationId, LocationPrefix) then locationId else LocationPrefix + locationId
  }

  /** Normalising twice is normalising once. */
  lemma LocationUrnIdempotent(locationId: string)
    ensures LocationUrn(LocationUrn(locationId)) == LocationUrn(locationId)
  {
  }

  /** The original id can always be read back from the end of the URN. */
  lemma LocationUrnKeepsId(locationId: string)
    ensures var urn := LocationUrn(locationId);
      |locationId| <= |urn| && urn[|urn| - |locationId|..] == locationId
  {
    var urn := LocationUrn(locationId);
    if !StartsWith(locationId, LocationPrefix) {
      assert urn[|urn| - |locationId|..] == locationId;
    }
  }

  /** The `variables` object of a booking request. */
  datatype Variables = Variables(locationId: Option<string>, searchDate: Option<string>, tz: Option<string>)

  /** The body of `POST /api/booking` (its unused `query` and `bookingData` are left out). */
  datatype BookingRequest = BookingRequest(
    operation: Option<string>, token: Option<string>, variables: Option<Variables>, cartId: Option<string>)

  const KnownOperations := {"getAppointmentHistory", "getMembership", "createCart", "getAvailableTimes", "completeBooking"}

  const DefaultTz := "America/New_York"

  /** What a booking request does before any reply: the operation it sends,
      or the response it gives without calling the platform. */
  datatype Dispatch = Send(operation: Operation) | Respond(response: Response)

  function BookingDispatch(req: BookingRequest): (d: Dispatch)
    ensures req.operation.None? || req.operation.value !in KnownOperations ==>
              d == Respond(Response(400, Error("Unknown operation")))
    ensures req.operation == Some("getAppointmentHistory") ==> d == Send(GetAppointmentHistory)
    ensures req.operation == Some("getMembership") ==> d == Send(GetMembership)
    ensures req.operation == Some("createCart") ==>
              if req.variables.None? || req.variables.value.locationId.None?
              then d == Respond(CaughtFailure("Booking operation failed", TypeError))
              else d == Send(CreateCart(LocationUrn(req.variables.value.locationId.value)))
    ensures req.operation == Some("getAvailableTimes") ==>
              if req.variables.None?
              then d == Respond(CaughtFailure("Booking operation failed", TypeError))
              else d.Send? && d.operation.GetCartBookableTimes? && d.operation.cartId == req.cartId
                   && d.operation.searchDate == req.variables.value.searchDate
                   && d.operation.tz == (if req.variables.value.tz.Some? then req.variables.value.tz.value else DefaultTz)
    ensures req.operation == Some("completeBooking") ==> d == Send(CheckoutCart(req.cartId))
  {
    if req.operation.None? then Respond(Response(400, Error("Unknown operation")))
    else match req.operation.value
      case "getAppointmentHistory" => Send(GetAppointmentHistory)
      case "getMembership" => Send(GetMembership)
      case "createCart" =>
        if req.variables.None? || req.variables.value.locationId.None?
        then Respond(CaughtFailure("Booking operation failed", TypeError))
        else Send(CreateCart(LocationUrn(req.variables.value.locationId.value)))
      case "getAvailableTimes" =>
        if req.variables.None? then Respond(CaughtFailure("Booking operation failed", TypeError))
        else
          var tz := if req.variables.value.tz.Some? then req.variables.value.tz.value else DefaultTz;
          Send(GetCartBookableTimes(req.cartId, req.variables.value.searchDate, tz))
      case "completeBooking" => Send(CheckoutCart(req.cartId))
      case _ => Respond(Response(400, Error("Unknown operation")))
  }

  /** The body a successful operation answers with, reshaped from the data;
      None where reading the data throws. */
  function Reshape(operation: Operation, data: Data): (b: Option<Body>)
    ensures operation.GetAppointmentHistory? && data.AppointmentsData? ==>
              b == Some(Appointments(Nodes(data.myAppointments.edges)))
    ensures operation.GetMembership? && data.MembershipsData? ==>
              b == Some(MembershipFound(FirstNode(data.myMemberships)))
    ensures operation.CreateCart? && data.CartCreated? ==> b == Some(CartOpened(data.cart.id, data.cart))
    ensures operation.GetCartBookableTimes? && data.BookableTimes? ==> b == Some(Times(data.times))
    ensures operation.CheckoutCart? && data.CartCheckedOut? ==> b == Some(BookingDone(data.checkedOut))
    ensures b.Some? ==>
              || (operation.GetAppointmentHistory? && data.AppointmentsData?)
              || (operation.GetMembership? && data.MembershipsData?)
              || (operation.CreateCart? && data.CartCreated?)
              || (operation.GetCartBookableTimes? && data.BookableTimes?)
              || (operation.CheckoutCart? && data.CartCheckedOut?)
  {
    match (operation, data)
    case (GetAppointmentHistory, AppointmentsData(c)) => Some(Appointments(Nodes(c.edges)))
    case (GetMembership, MembershipsData(c)) => Some(MembershipFound(FirstNode(c)))
    case (CreateCart(_), CartCreated(cart)) => Some(CartOpened(cart.id, cart))
    case (GetCartBookableTimes(_, _, _), BookableTimes(times)) => Some(Times(times))
    case (CheckoutCart(_), CartCheckedOut(cart)) => Some(BookingDone(cart))
    case _ => None
  }

  /** `POST /api/booking`. */
  function BookingRoute(config: Config, req: BookingRequest, upstream: Call -> Reply): (ex: Exchange)
    ensures BookingDispatch(req).Respond? ==> ex == Exchange([], BookingDispatch(req).response)
    ensures BookingDispatch(req).Send? ==>
              ex.calls == [Call(ClientApi, ClientAuthHeader(config, req.token), BookingDispatch(req).operation)]
    ensures ex.response.status == 200 ==>
              |ex.calls| == 1 && Invoke(upstream(ex.calls[0])).Ok?
              && Some(ex.response.body) == Reshape(ex.calls[0].operation, Invoke(upstream(ex.calls[0])).value)
    ensures |ex.calls| == 1 && Invoke(upstream(ex.calls[0])).Thrown? ==>
              ex.response == CaughtFailure("Booking operation failed", Invoke(upstream(ex.calls[0])).failure)
    ensures |ex.calls| == 1 && Invoke(upstream(ex.calls[0])).Ok? ==>
              ex.response == match Reshape(ex.calls[0].operation, Invoke(upstream(ex.calls[0])).value)
                             case Some(b) => Response(200, b)
                             case None => CaughtFailure("Booking operation failed", TypeError)
  {
    match BookingDispatch(req)
    case Respond(response) => Exchange([], response)
    case Send(operation) =>
      var call := Call(ClientApi, ClientAuthHeader(config, req.token), operation);
      var response :=
        match Invoke(upstream(call))
        case Thrown(f) => CaughtFailure("Booking operation failed", f)
        case Ok(data) =>
          (match Reshape(operation, data)
           case Some(body) => Response(200, body)
           case None => CaughtFailure("Booking operation failed", TypeError));
      Exchange([call], response)
  }
}
