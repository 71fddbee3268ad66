/**
 * The server-side submit path `submitRsvp`: it inserts the same row as the
 * page, but reads the server-side environment values and reports its outcome
 * as `{ ok, error }` instead of setting page state.
 */
module ServerAction {
  import opened Wrappers
  import opened Store
  import RsvpPage

  const SkippedMsg := "Supabase environment variables not set. Skipping submission."

  /** `{ ok: true }` or `{ ok: false, error }` */
  datatype ActionResult = ActionResult(ok: bool, error: Option<string>)

  /** The action's answer together with the row it handed to the store, if any. */
  datatype Submission = Submission(result: ActionResult, inserted: Option<Row>)

  /**
   * `submitRsvp(payload)`. `env` holds the server-side values, `response` is what
   * the insert returned and `now` the timestamp of the call.
   */
  function SubmitRsvp(payload: Payload, env: Env, response: InsertResponse, now: string): (s: Submission)
    ensures s.result.ok <==> ClientConfigured(env) && response == Inserted
    ensures s.result.ok <==> s.result.error.None?
    ensures s.inserted.Some? <==> ClientConfigured(env)
    ensures s.inserted.Some? ==> s.inserted.value == RowOf(payload, now)
    ensures !ClientConfigured(env) ==> s.result.error == Some(SkippedMsg)
    ensures ClientConfigured(env) && response.Rejected? ==> s.result.error == Some(response.message)
    ensures ClientConfigured(env) && response.Raised? ==> s.result.error == Some(ThrownMessage(response.thrown))
  {
    if !ClientConfigured(env) then
      Submission(ActionResult(false, Some(SkippedMsg)), None)
    else
      var row := RowOf(payload, now);
      match response
      case Rejected(m) => Submission(ActionResult(false, Some(m)), Some(row))
      case Inserted => Submission(ActionResult(true, None), Some(row))
      case Raised(t) => Submission(ActionResult(false, Some(ThrownMessage(t))), Some(row))
  }

  /** Guest names in the payload never reach the store. */
  lemma GuestNamesIgnored(payload: Payload, names: Option<seq<string>>, env: Env, response: InsertResponse, now: string)
    ensures SubmitRsvp(payload.(guest_names := names), env, response, now) == SubmitRsvp(payload, env, response, now)
  {
    RowIgnoresGuestNames(payload, names, now);
  }

  /**
   * For a payload with a name and a configured client, the page and the action
   * agree: same row, same success, and on failure the same message.
   */
  lemma AgreesWithPage(payload: Payload, env: Env, response: InsertResponse, now: string)
    requires payload.full_name != "" && ClientConfigured(env)
    ensures var s := SubmitRsvp(payload, env, response, now);
      var st := RsvpPage.SubmitStatus(payload, true, response);
      s.result.ok == st.ok
      && (!st.ok ==> s.result.error == Some(st.msg))
      && s.inserted == Some(RowOf(payload, now))
  {
  }

  /** Without configuration both paths refuse, each with its own message. */
  lemma BothRefuseUnconfigured(payload: Payload, env: Env, response: InsertResponse, now: string)
    requires payload.full_name != "" && !ClientConfigured(env)
    ensures var s := SubmitRsvp(payload, env, response, now);
      var st := RsvpPage.SubmitStatus(payload, false, response);
      !s.result.ok && !st.ok && s.inserted.None?
      && s.result.error == Some(SkippedMsg) && st.msg == RsvpPage.NotConfiguredMsg
  {
  }
}
