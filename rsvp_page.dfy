/**
 * The RSVP page: the list of additional guest names (at most three), the
 * payload built from the form on submit, and the submit handler that moves the
 * page's status through "not configured", "store error", "thrown" and
 * "success". The page builds its own payload and does not call the validator.
 */
module RsvpPage {
  import opened Wrappers
  import opened Text
  import opened Store
  import Validation

  const MaxGuests := 3
  const NameRequiredMsg := "Full name is required."
  const NotConfiguredMsg := "Supabase not configured. Please contact the site administrator."
  const SubmittedMsg := "RSVP submitted. Thank you!"

  /** The status line under the form. */
  datatype Status = Status(ok: bool, msg: string)

  /** `addGuest`: one more empty name while there are fewer than three. */
  function AddGuest(names: seq<string>): (r: seq<string>)
    ensures |names| < MaxGuests ==> |r| == |names| + 1 && r[|names|] == ""
    ensures |names| >= MaxGuests ==> r == names
    ensures |names| <= MaxGuests ==> |r| <= MaxGuests
    ensures |r| >= |names| && r[..|names|] == names
  {
    if |names| < MaxGuests then names + [""] else names
  }

  /** `guestNames.filter((_, i) => i !== index)`, with `i` counted from `base`. */
  function FilterIndex(names: seq<string>, index: int, base: int): seq<string> {
    if |names| == 0 then []
    else (if base == index then [] else [names[0]]) + FilterIndex(names[1..], index, base + 1)
  }

  /**
   * `removeGuest(index)`: slot `index` is dropped and every later slot moves
   * down by one; an index outside the list changes nothing.
   */
  function RemoveGuest(names: seq<string>, index: int): (r: seq<string>)
    ensures 0 <= index < |names| ==>
      |r| == |names| - 1
      && (forall j :: 0 <= j < index ==> r[j] == names[j])
      && (forall j :: index <= j < |r| ==> r[j] == names[j + 1])
    ensures !(0 <= index < |names|) ==> r == names
  {
    FilterIndexSpec(names, index, 0);
    FilterIndex(names, index, 0)
  }

  lemma {:induction false} FilterIndexSpec(names: seq<string>, index: int, base: int)
    ensures base <= index < base + |names| ==>
      FilterIndex(names, index, base) == names[..index - base] + names[index - base + 1..]
    ensures !(base <= index < base + |names|) ==> FilterIndex(names, index, base) == names
  {
    if |names| > 0 {
      var tail := names[1..];
      FilterIndexSpec(tail, index, base + 1);
      if base == index {
        assert FilterIndex(names, index, base) == FilterIndex(tail, index, base + 1) == tail;
        assert names[..0] + names[1..] == tail;
      } else if base < index < base + |names| {
        var m := index - base;
        assert FilterIndex(names, index, base) == [names[0]] + FilterIndex(tail, index, base + 1);
        assert FilterIndex(tail, index, base + 1) == tail[..m - 1] + tail[m..];
        assert names[..m] == [names[0]] + tail[..m - 1];
        assert names[m + 1..] == tail[m..];
      } else {
        assert FilterIndex(names, index, base) == [names[0]] + tail;
        assert names == [names[0]] + tail;
      }
    }
  }

  /**
   * Removing slot `index` drops exactly that name and shifts the later ones down
   * by one, keeping their text and order; an index outside the list changes
   * nothing.
   */
  lemma RemoveGuestSpec(names: seq<string>, index: int)
    ensures 0 <= index < |names| ==> RemoveGuest(names, index) == names[..index] + names[index + 1..]
    ensures 0 <= index < |names| ==> |RemoveGuest(names, index)| == |names| - 1
    ensures !(0 <= index < |names|) ==> RemoveGuest(names, index) == names
  {
    FilterIndexSpec(names, index, 0);
  }

  /** `updateGuestName(index, name)` for a slot on screen. */
  function UpdateGuestName(names: seq<string>, index: nat, name: string): (r: seq<string>)
    requires index < |names|
    ensures |r| == |names| && r[index] == name
    ensures forall j :: 0 <= j < |names| && j != index ==> r[j] == names[j]
  {
    names[index := name]
  }

  /** `getGuestCount()` */
  function GuestCount(names: seq<string>): nat {
    |names|
  }

  /** The "Total attending" figure: the person responding plus each guest slot. */
  function TotalAttending(names: seq<string>): (n: nat)
    ensures n == |names| + 1
    ensures |names| <= MaxGuests ==> 1 <= n <= MaxGuests + 1
  {
    1 + GuestCount(names)
  }

  const TotalPrefix := "Total attending: "

  /**
   * The "Total attending" line: the figure shown reads back as the number of
   * people counted, and the noun is "person" exactly when no guest slot is open.
   */
  function TotalLine(names: seq<string>): (r: string)
    ensures var digits := NatToString(TotalAttending(names));
      && DecimalValue(digits) == |names| + 1
      && r == TotalPrefix + digits + " " + (if |names| == 0 then "person" else "people")
  {
    NatToStringRoundTrip(TotalAttending(names));
    var n := TotalAttending(names);
    TotalPrefix + NatToString(n) + " " + (if n == 1 then "person" else "people")
  }

  /** The "Add guest" button is offered exactly while adding would change the list. */
  lemma AddGuestShownIff(names: seq<string>)
    ensures |names| < MaxGuests <==> AddGuest(names) != names
  {
    if |names| < MaxGuests {
      assert |AddGuest(names)| != |names|;
    }
  }

  /** Trimmed, and absent when empty: `String(v || '').trim() || undefined`. */
  function TrimmedOrAbsent(v: Option<string>): (r: Option<string>)
    ensures r.None? <==> Trim(OrEmpty(v)) == ""
    ensures r.Some? ==> r.value == Trim(OrEmpty(v))
  {
    var t := Trim(OrEmpty(v));
    if t == "" then None else Some(t)
  }

  /**
   * The payload `onSubmit` builds: attending is true iff the radio value (default
   * `yes`) is `yes`; `guests` counts the person responding and every slot; guest
   * names are not sent.
   */
  function BuildPayload(form: Validation.FormData, names: seq<string>): (p: Payload)
    ensures p.full_name == Trim(OrEmpty(form.full_name))
    ensures p.email == TrimmedOrAbsent(form.email) && p.notes == TrimmedOrAbsent(form.notes)
    ensures p.attending <==> (!Truthy(form.attending) || form.attending.value == "yes")
    ensures p.guests == Some(TotalAttending(names))
    ensures p.guest_names.None?
  {
    Payload(
      Trim(OrEmpty(form.full_name)),
      TrimmedOrAbsent(form.email),
      (if Truthy(form.attending) then form.attending.value else "yes") == "yes",
      Some(1 + GuestCount(names)),
      None,
      TrimmedOrAbsent(form.notes))
  }

  /**
   * The status a submission ends with, given whether a client could be created
   * and what the insert answered.
   */
  function SubmitStatus(p: Payload, configured: bool, response: InsertResponse): (st: Status)
    ensures st.ok <==> p.full_name != "" && configured && response == Inserted
    ensures st.ok ==> st.msg == SubmittedMsg
  {
    if p.full_name == "" then Status(false, NameRequiredMsg)
    else if !configured then Status(false, NotConfiguredMsg)
    else match response
      case Rejected(m) => Status(false, m)
      case Inserted => Status(true, SubmittedMsg)
      case Raised(t) => Status(false, ThrownMessage(t))
  }

  /**
   * A submission succeeds iff the name is non-empty, a client exists and the
   * insert reported no error; every failure carries its own message.
   */
  lemma SubmitStatusCases(p: Payload, configured: bool, response: InsertResponse)
    ensures SubmitStatus(p, configured, response).ok <==>
      p.full_name != "" && configured && response == Inserted
    ensures p.full_name == "" ==> SubmitStatus(p, configured, response).msg == NameRequiredMsg
    ensures p.full_name != "" && !configured ==> SubmitStatus(p, configured, response).msg == NotConfiguredMsg
    ensures p.full_name != "" && configured && response.Rejected? ==>
      SubmitStatus(p, configured, response).msg == response.message
    ensures p.full_name != "" && configured && response.Raised? ==>
      SubmitStatus(p, configured, response).msg ==
        (if response.thrown.ErrorObject? then response.thrown.message else "Unknown error")
  {
  }

  /**
   * The page builds its payload without the validator: a one-letter name that
   * the validator rejects is sent, and a configured store that accepts it
   * reports success.
   */
  lemma PageSkipsValidation(form: Validation.FormData, names: seq<string>)
    requires form.full_name == Some("A")
    ensures Validation.FullNameError(Validation.FullNameOf(form)).Some?
    ensures SubmitStatus(BuildPayload(form, names), true, Inserted).ok
  {
    TrimOfTrimmed("A");
  }

  /** The empty form after `form.reset()`: the `yes` radio is checked by default. */
  const ResetForm := Validation.FormData(Some(""), Some(""), Some("yes"), Some(""), map[])

  /** The page's state: React state variables and the uncontrolled form inputs. */
  class Page {
    const env: Env
    var status: Option<Status>
    var submitting: bool
    var guestNames: seq<string>
    var form: Validation.FormData

    ghost predicate Valid()
      reads this
    {
      |guestNames| <= MaxGuests
    }

    /** `hasEnv`: whether the submit button may be enabled at all. */
    function HasEnv(): bool
      reads this
    {
      ClientConfigured(env)
    }

    /** The submit button is disabled while submitting or without configuration. */
    function SubmitDisabled(): (d: bool)
      reads this
      ensures d <==> submitting || !ClientConfigured(env)
    {
      submitting || !HasEnv()
    }

    constructor (env: Env)
      ensures Valid() && this.env == env
      ensures status == None && !submitting && guestNames == [] && form == ResetForm
    {
      this.env := env;
      status := None;
      submitting := false;
      guestNames := [];
      form := ResetForm;
    }

    /** The user types into the uncontrolled inputs. */
    method Edit(newForm: Validation.FormData)
      modifies this
      ensures form == newForm
      ensures status == old(status) && submitting == old(submitting) && guestNames == old(guestNames)
    {
      form := newForm;
    }

    method AddGuestSlot()
      requires Valid()
      modifies this
      ensures Valid() && guestNames == AddGuest(old(guestNames))
      ensures status == old(status) && submitting == old(submitting) && form == old(form)
    {
      if |guestNames| < MaxGuests {
        guestNames := guestNames + [""];
      }
    }

    method RemoveGuestSlot(index: int)
      requires Valid()
      modifies this
      ensures Valid() && guestNames == RemoveGuest(old(guestNames), index)
      ensures status == old(status) && submitting == old(submitting) && form == old(form)
    {
      RemoveGuestSpec(guestNames, index);
      guestNames := RemoveGuest(guestNames, index);
    }

    method UpdateGuestSlot(index: nat, name: string)
      requires Valid() && index < |guestNames|
      modifies this
      ensures Valid() && guestNames == UpdateGuestName(old(guestNames), index, name)
      ensures status == old(status) && submitting == old(submitting) && form == old(form)
    {
      var updated := guestNames;
      updated := updated[index := name];
      guestNames := updated;
    }

    /**
     * `onSubmit`, as one sequential step. `now` is the submission timestamp and
     * `response` what the insert returned; `attempted` is the row handed to the
     * store, None when no insert was made.
     */
    method Submit(now: string, response: InsertResponse) returns (attempted: Option<Row>)
      requires Valid()
      modifies this
      ensures Valid()
      ensures var p := BuildPayload(old(form), old(guestNames));
        status == Some(SubmitStatus(p, ClientConfigured(env), response))
      ensures var p := BuildPayload(old(form), old(guestNames));
        attempted == (if p.full_name != "" && ClientConfigured(env) then Some(RowOf(p, now)) else None)
      ensures var p := BuildPayload(old(form), old(guestNames));
        submitting == (if p.full_name == "" then old(submitting) else false)
      ensures var ok := status.Some? && status.value.ok;
        (ok ==> form == ResetForm && guestNames == [])
        && (!ok ==> form == old(form) && guestNames == old(guestNames))
    {
      var payload := BuildPayload(form, guestNames);
      if payload.full_name == "" {
        status := Some(Status(false, NameRequiredMsg));
        return None;
      }

      submitting := true;
      status := None;

      if !ClientConfigured(env) {
        status := Some(Status(false, NotConfiguredMsg));
        submitting := false;
        return None;
      }

      attempted := Some(RowOf(payload, now));
      match response {
        case Rejected(m) =>
          status := Some(Status(false, m));
        case Inserted =>
          status := Some(Status(true, SubmittedMsg));
          form := ResetForm;
          guestNames := [];
        case Raised(t) =>
          status := Some(Status(false, ThrownMessage(t)));
      }
      submitting := false;
    }
  }
}
