/**
 * The RSVP payload, the row inserted into the `rsvps` table, and the hosted
 * store seen only through its answer to one insert. Creating the client and
 * performing the network call are outside the model: the caller supplies what
 * the environment holds and what the insert returned.
 */
module Store {
  import opened Wrappers

  /** `RsvpPayload`: what a form hands to a submit path. */
  datatype Payload = Payload(
    full_name: string,
    email: Option<string>,
    attending: bool,
    guests: Option<int>,
    guest_names: Option<seq<string>>,
    notes: Option<string>)

  /** The inserted record; it has no column for guest names. */
  datatype Row = Row(
    full_name: string,
    email: Option<string>,
    attending: bool,
    guests: int,
    notes: Option<string>,
    submitted_at: string)

  /** The two environment values a client needs. */
  datatype Env = Env(url: Option<string>, key: Option<string>)

  /** A value raised by a `throw`: an `Error` with its message, or anything else. */
  datatype Thrown = ErrorObject(message: string) | OtherValue

  /** What the insert call came back with. */
  datatype InsertResponse =
    | Inserted
    | Rejected(message: string)
    | Raised(thrown: Thrown)

  /** A client is created only when both values are present and non-empty. */
  predicate ClientConfigured(env: Env) {
    env.url.Some? && env.url.value != "" && env.key.Some? && env.key.value != ""
  }

  /**
   * The record both submit paths insert: absent email and notes become null,
   * absent guests becomes 0, and `guest_names` is not carried.
   */
  function RowOf(p: Payload, submittedAt: string): (r: Row)
    ensures r.full_name == p.full_name && r.attending == p.attending
    ensures r.email == p.email && r.notes == p.notes
    ensures p.guests.Some? ==> r.guests == p.guests.value
    ensures p.guests.None? ==> r.guests == 0
    ensures r.submitted_at == submittedAt
  {
    Row(p.full_name, p.email, p.attending, p.guests.GetOr(0), p.notes, submittedAt)
  }

  /** `err instanceof Error ? err.message : 'Unknown error'` */
  function ThrownMessage(t: Thrown): string {
    match t
    case ErrorObject(m) => m
    case OtherValue => "Unknown error"
  }

  /** Two payloads that differ only in `guest_names` give the same row. */
  lemma RowIgnoresGuestNames(p: Payload, names: Option<seq<string>>, at: string)
    ensures RowOf(p.(guest_names := names), at) == RowOf(p, at)
  {
  }
}
