/**
 * `api/appointment-history.js`: checks for a Bearer header and lists the
 * last appointments from the client API. The token it extracts is never
 * sent: the query is authorised with the API key alone.
 */
module AppointmentHistory {
  import opened Js
  import opened Boulevard
  import opened Http

  /** The history query, authorised with the API key only. */
  function HistoryCall(env: Option<string>): Call {
    Call(ClientApi, KeyOnlyAuth(EnvApiKey(env)), GetAppointmentHistory)
  }

  /** The handler's answer to the platform's reply. */
  function HistoryAnswer(reply: Reply): (r: Response)
    ensures ReplyFailure(reply).Some? ==> r == ReplyFailure(reply).value
    ensures ReplyFailure(reply).None? && reply.data.AppointmentsData? ==>
              r == Response(200, Appointments(Nodes(reply.data.myAppointments.edges)))
    ensures ReplyFailure(reply).None? && !reply.data.AppointmentsData? ==> r == InternalError
  {
    if ReplyFailure(reply).Some? then ReplyFailure(reply).value
    else if reply.data.AppointmentsData? then Response(200, Appointments(Nodes(reply.data.myAppointments.edges)))
    else InternalError
  }

  /** The handler, with `BOULEVARD_API_KEY` as `env` and the Authorization header as `authorization`. */
  function AppointmentHistoryHandler(verb: string, env: Option<string>, authorization: Option<string>,
                                     upstream: Call -> Reply): (ex: Exchange)
    ensures MethodGate(verb).Some? ==> ex == Exchange([], MethodGate(verb).value)
    ensures MethodGate(verb).None? && BearerToken(authorization).None? ==> ex == Exchange([], Unauthorized)
    ensures MethodGate(verb).None? && BearerToken(authorization).Some? ==>
              ex.calls == [HistoryCall(env)] && ex.response == HistoryAnswer(upstream(ex.calls[0]))
  {
    if MethodGate(verb).Some? then Exchange([], MethodGate(verb).value)
    else match BearerToken(authorization)
      case None => Exchange([], Unauthorized)
      case Some(_) =>
        var call := HistoryCall(env);
        Exchange([call], HistoryAnswer(upstream(call)))
  }

  /** Which token follows "Bearer " makes no difference to what is sent or answered. */
  lemma HistoryIgnoresToken(verb: string, env: Option<string>, h1: Option<string>, h2: Option<string>,
                            upstream: Call -> Reply)
    requires BearerToken(h1).Some? && BearerToken(h2).Some?
    ensures AppointmentHistoryHandler(verb, env, h1, upstream) == AppointmentHistoryHandler(verb, env, h2, upstream)
  {
  }

  /** The answer keeps the appointments in the platform's order, one node per edge. */
  lemma HistoryKeepsOrder(reply: Reply)
    requires ReplyFailure(reply).None? && reply.data.AppointmentsData?
    ensures var r := HistoryAnswer(reply); var edges := reply.data.myAppointments.edges;
      r.body.Appointments? && |r.body.appointments| == |edges|
      && forall i :: 0 <= i < |edges| ==> r.body.appointments[i] == edges[i].node
  {
  }
}
