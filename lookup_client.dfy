/**
 * `api/lookup-client.js`: finds a client by email or phone with one admin
 * query. Its filter is built by a nested template rather than by the
 * `+=` steps of the server's route, and differs from it when only a phone
 * is given.
 */
module LookupClient {
  import opened Js
  import opened Boulevard
  import opened Http
  import Server

  /** The filter of the `clients(query: ...)` argument. */
  function Filter(email: Option<string>, phone: Option<string>): string {
    (if Truthy(email) then EmailClause(email.value) else "")
    + (if Truthy(phone) then " OR " + PhoneClause(phone.value) else "")
  }

  /** Against the server's search: the same whenever an email is given or no
      phone is, and with a leading " OR " when only a phone is given. */
  lemma FilterAgainstServer(email: Option<string>, phone: Option<string>)
    ensures Truthy(email) || !Truthy(phone) ==> Filter(email, phone) == Server.SearchQuery(email, phone)
    ensures !Truthy(email) && Truthy(phone) ==> Filter(email, phone) == " OR " + Server.SearchQuery(email, phone)
  {
  }

  /** The filter starts with the separator exactly when only a phone is given. */
  lemma FilterLeadingSeparator(email: Option<string>, phone: Option<string>)
    ensures StartsWith(Filter(email, phone), " OR ") <==> !Truthy(email) && Truthy(phone)
  {
    var f := Filter(email, phone);
    if Truthy(email) {
      assert f[0] == 'e';
    } else if Truthy(phone) {
      assert f[..4] == " OR ";
    }
  }

  /** The handler's answer to the platform's reply. */
  function LookupAnswer(reply: Reply): (r: Response)
    ensures ReplyFailure(reply).Some? ==> r == ReplyFailure(reply).value
    ensures ReplyFailure(reply).None? && reply.data.ClientsData? ==>
              r == Response(200, ClientFound(FirstNode(reply.data.clients)))
    ensures ReplyFailure(reply).None? && !reply.data.ClientsData? ==> r == InternalError
  {
    if ReplyFailure(reply).Some? then ReplyFailure(reply).value
    else if reply.data.ClientsData? then Response(200, ClientFound(FirstNode(reply.data.clients)))
    else InternalError
  }

  /** The handler, with `BOULEVARD_API_KEY` as `env`. */
  function LookupClientHandler(verb: string, env: Option<string>, email: Option<string>, phone: Option<string>,
                               upstream: Call -> Reply): (ex: Exchange)
    ensures MethodGate(verb).Some? ==> ex == Exchange([], MethodGate(verb).value)
    ensures MethodGate(verb).None? && !Truthy(email) && !Truthy(phone) ==>
              ex == Exchange([], Response(400, Error("Email or phone required")))
    ensures MethodGate(verb).None? && (Truthy(email) || Truthy(phone)) ==>
              ex.calls == [Call(AdminApi, KeyOnlyAuth(EnvApiKey(env)), FindClient(Filter(email, phone)))]
              && ex.response == LookupAnswer(upstream(ex.calls[0]))
  {
    if MethodGate(verb).Some? then Exchange([], MethodGate(verb).value)
    else if !Truthy(email) && !Truthy(phone) then Exchange([], Response(400, Error("Email or phone required")))
    else
      var call := Call(AdminApi, KeyOnlyAuth(EnvApiKey(env)), FindClient(Filter(email, phone)));
      Exchange([call], LookupAnswer(upstream(call)))
  }
}
