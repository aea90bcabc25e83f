/**
 * The upstream scheduling platform as the handlers see it: the configuration
 * they authenticate with, the GraphQL operations they send (the document
 * text is fixed and not modelled, only its variable parts), the shapes of
 * the replies they read, the Basic-authorization header, and the two
 * reshapings of a GraphQL connection ("first edge or null", "edges to nodes").
 */
module Boulevard {
  import opened Js
  import opened Encoding

  /** Process-wide configuration, immutable once the process starts. */
  datatype Config = Config(apiKey: string, secretKey: string, businessId: string)

  /** An object returned by the platform (client, appointment, membership, cart, ...).
      Its fields are passed through unchanged and are not interpreted. */
  datatype Node = Node(id: string, fields: map<string, string>)

  datatype Edge = Edge(node: Node)

  /** A GraphQL connection: `{ edges: [{ node }, ...] }`. */
  datatype Connection = Connection(edges: seq<Edge>)

  /** One entry of `location.appointmentSlots`. */
  datatype Slot = Slot(startTime: string, endTime: string, available: bool)

  /** `location`, whose `appointmentSlots` may be null. */
  datatype Location = Location(appointmentSlots: Option<seq<Slot>>)

  /** The `data` member of a reply, by the shape the handler expects. `NoData`
      stands for a null `data` or any shape on which the handler's property
      accesses throw a TypeError. */
  datatype Data =
    | NoData
    | ClientsData(clients: Connection)
    | AppointmentsData(myAppointments: Connection)
    | MembershipsData(myMemberships: Connection)
    | CartCreated(cart: Node)
    | BookableTimes(times: seq<Node>)
    | CartCheckedOut(checkedOut: Option<Node>)
    | LocationData(location: Option<Location>)
    | ClientCreated(client: Node)
    | AppointmentCreated(appointment: Option<Node>)

  /** What a `fetch` to the platform yields: either it (or `.json()`) rejects,
      or there is an HTTP answer with its GraphQL `errors` messages and `data`. */
  datatype Reply =
    | Rejected(message: string)
    | Answer(ok: bool, status: int, statusText: string, errors: seq<string>, data: Data)

  datatype AppointmentInput = AppointmentInput(
    clientId: Option<string>, locationId: Option<string>, startAt: Option<string>, notes: string)

  /** The operations sent, with their variable parts. */
  datatype Operation =
    | FindClient(filter: string)
    | GetAppointmentHistory
    | GetMembership
    | CreateCart(locationUrn: string)
    | GetCartBookableTimes(cartId: Option<string>, searchDate: Option<string>, tz: string)
    | CheckoutCart(cartId: Option<string>)
    | GetAvailability(location: Option<string>, staffId: Option<string>, startDate: string, endDate: string)
    | CreateClient(firstName: string, lastName: string, email: string, mobilePhone: Option<string>)
    | CreateAppointment(input: AppointmentInput)

  /** The admin endpoint or the client-scoped endpoint. */
  datatype Api = AdminApi | ClientApi

  /** One POST to the platform with its Authorization header. */
  datatype Call = Call(api: Api, authorization: string, operation: Operation)

  /** `'Basic ' + Buffer.from(user + ':' + password).toString('base64')`. */
  function BasicAuth(user: string, password: string): string {
    "Basic " + Base64Encode(Utf8Encode(user + ":" + password))
  }

  /** The header carries exactly the UTF-8 credentials `user:password`, recoverable by decoding. */
  lemma BasicAuthDecodes(user: string, password: string)
    ensures StartsWith(BasicAuth(user, password), "Basic ")
    ensures Base64Decode(BasicAuth(user, password)[6..])
         == Some(Utf8Encode(user) + [':' as int] + Utf8Encode(password))
  {
    var h := BasicAuth(user, password);
    var creds := Utf8Encode(user + ":" + password);
    assert h[6..] == Base64Encode(creds);
    Base64RoundTrip(creds);
    Utf8Concat(user + ":", password);
    Utf8Concat(user, ":");
    assert Utf8Encode(":") == [':' as int] by {
      assert ":"[1..] == "";
    }
  }

  /** The header sent with only the API key: `Buffer.from(apiKey + ':')`. */
  function KeyOnlyAuth(apiKey: string): string {
    BasicAuth(apiKey, "")
  }

  /** The API key as the `api/` handlers read it from the environment:
      an unset variable concatenates as "undefined". */
  function EnvApiKey(env: Option<string>): string {
    Render(env)
  }

  /** `edges.length > 0 ? edges[0].node : null`. */
  function FirstNode(c: Connection): (r: Option<Node>)
    ensures r.None? <==> |c.edges| == 0
    ensures r.Some? ==> r.value == c.edges[0].node
  {
    if |c.edges| > 0 then Some(c.edges[0].node) else None
  }

  /** `edges.map(edge => edge.node)`. */
  function Nodes(edges: seq<Edge>): (r: seq<Node>)
    ensures |r| == |edges|
    ensures forall i :: 0 <= i < |edges| ==> r[i] == edges[i].node
  {
    if edges == [] then [] else [edges[0].node] + Nodes(edges[1..])
  }

  /** The edge-to-node mapping commutes with concatenation of edge lists. */
  lemma {:induction false} NodesConcat(a: seq<Edge>, b: seq<Edge>)
    ensures Nodes(a + b) == Nodes(a) + Nodes(b)
  {
    if a != [] {
      assert (a + b)[1..] == a[1..] + b;
      NodesConcat(a[1..], b);
    } else {
      assert a + b == b;
    }
  }

  /** "First edge or null" is the head of "edges to nodes". */
  lemma FirstNodeIsHead(c: Connection)
    ensures FirstNode(c) == if Nodes(c.edges) == [] then None else Some(Nodes(c.edges)[0])
  {
  }

  /** `email = "<e>"` as interpolated into a client search. */
  function EmailClause(email: string): string {
    "email = \"" + email + "\""
  }

  /** `mobilePhone = "<p>"` as interpolated into a client search. */
  function PhoneClause(phone: string): string {
    "mobilePhone = \"" + phone + "\""
  }
}
