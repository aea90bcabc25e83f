/**
 * `api/client-membership.js`: reads the client token from a Bearer header
 * and asks the client API for the first active membership.
 */
module ClientMembership {
  import opened Js
  import opened Encoding
  import opened Boulevard
  import opened Http

  /** The membership query, authorised with the API key and the client token. */
  function MembershipCall(env: Option<string>, clientToken: string): Call {
    Call(ClientApi, BasicAuth(EnvApiKey(env), clientToken), GetMembership)
  }

  /** The handler's answer to the platform's reply. */
  function MembershipAnswer(reply: Reply): (r: Response)
    ensures ReplyFailure(reply).Some? ==> r == ReplyFailure(reply).value
    ensures ReplyFailure(reply).None? && reply.data.MembershipsData? ==>
              r == Response(200, MembershipFound(FirstNode(reply.data.myMemberships)))
    ensures ReplyFailure(reply).None? && !reply.data.MembershipsData? ==> r == InternalError
  {
    if ReplyFailure(reply).Some? then ReplyFailure(reply).value
    else if reply.data.MembershipsData? then Response(200, MembershipFound(FirstNode(reply.data.myMemberships)))
    else InternalError
  }

  /** The handler, with `BOULEVARD_API_KEY` as `env` and the Authorization header as `authorization`. */
  function ClientMembershipHandler(verb: string, env: Option<string>, authorization: Option<string>,
                                   upstream: Call -> Reply): (ex: Exchange)
    ensures MethodGate(verb).Some? ==> ex == Exchange([], MethodGate(verb).value)
    ensures MethodGate(verb).None? && BearerToken(authorization).None? ==> ex == Exchange([], Unauthorized)
    ensures MethodGate(verb).None? && BearerToken(authorization).Some? ==>
              ex.calls == [MembershipCall(env, BearerToken(authorization).value)]
              && ex.response == MembershipAnswer(upstream(ex.calls[0]))
  {
    if MethodGate(verb).Some? then Exchange([], MethodGate(verb).value)
    else match BearerToken(authorization)
      case None => Exchange([], Unauthorized)
      case Some(clientToken) =>
        var call := MembershipCall(env, clientToken);
        Exchange([call], MembershipAnswer(upstream(call)))
  }

  /** The upstream header carries exactly the API key and the token that
      follows "Bearer " in the request's header. */
  lemma MembershipForwardsToken(verb: string, env: Option<string>, authorization: Option<string>,
                                upstream: Call -> Reply)
    requires verb == "POST" && BearerToken(authorization).Some?
    ensures var ex := ClientMembershipHandler(verb, env, authorization, upstream);
      var clientToken := BearerToken(authorization).value;
      |ex.calls| == 1 && authorization.value == BearerPrefix + clientToken
      && Base64Decode(ex.calls[0].authorization[6..])
         == Some(Utf8Encode(EnvApiKey(env)) + [':' as int] + Utf8Encode(clientToken))
  {
    BasicAuthDecodes(EnvApiKey(env), BearerToken(authorization).value);
  }
}
