/**
 * `validateRsvpForm`: every field of the RSVP form is checked against its rule,
 * every failure is collected into one error map keyed by field (the check does
 * not stop at the first failure), and only an empty map yields the normalised
 * record. The email pattern is a parameter: its regular expression belongs to
 * the validation library, not to this site.
 */
module Validation {
  import opened Wrappers
  import opened Text

  /** The submitted form fields as `FormData.get` returns them (absent is None). */
  datatype FormData = FormData(
    full_name: Option<string>,
    email: Option<string>,
    attending: Option<string>,
    notes: Option<string>,
    guests: map<nat, string>)  // the `guest_<i>` fields

  /** The keys of the error map: the four named fields and `guest_<i>`. */
  datatype FieldKey = FullName | Email | Attending | Notes | Guest(index: nat)

  /** The normalised record returned on success. */
  datatype RsvpFormData = RsvpFormData(
    full_name: string,
    email: Option<string>,
    attending: string,
    guest_names: Option<seq<string>>,
    notes: Option<string>)

  datatype Validation = Valid(data: RsvpFormData) | Invalid(errors: map<FieldKey, string>)

  const FullNameRequired := "Full name is required"
  const FullNameTooShort := "Full name must be at least 2 characters"
  const FullNameTooLong := "Full name must be less than 100 characters"
  const InvalidEmail := "Please enter a valid email address"
  const NotesTooLong := "Notes must be less than 1000 characters"
  const GuestRequired := "Guest name is required"
  const GuestTooShort := "Guest name must be at least 2 characters"
  const GuestTooLong := "Guest name must be less than 100 characters"

  /**
   * The message the validation library gives for a value outside the
   * `'yes' | 'no'` enumeration; the schema's `required_error` applies only to an
   * undefined value, which this validator never passes.
   */
  function AttendingMessage(received: string): string {
    "Invalid enum value. Expected 'yes' | 'no', received '" + received + "'"
  }

  /**
   * The full-name rule on the trimmed name: all length checks run and the first
   * failing one in the schema's order gives the message.
   */
  function FullNameError(name: string): (e: Option<string>)
    ensures e.None? <==> 2 <= |name| <= 100
    ensures |name| == 0 ==> e == Some(FullNameRequired)
    ensures |name| == 1 ==> e == Some(FullNameTooShort)
    ensures |name| > 100 ==> e == Some(FullNameTooLong)
  {
    if |name| < 1 then Some(FullNameRequired)
    else if |name| < 2 then Some(FullNameTooShort)
    else if |name| > 100 then Some(FullNameTooLong)
    else None
  }

  /** The email rule on the trimmed email: an empty email is not checked. */
  function EmailError(email: string, isEmail: string -> bool): (e: Option<string>)
    ensures e.None? <==> (email == "" || isEmail(email))
    ensures e.Some? ==> e.value == InvalidEmail
  {
    if email != "" && !isEmail(email) then Some(InvalidEmail) else None
  }

  /** The attending rule on the untrimmed value: exactly `yes` or `no`. */
  function AttendingError(attending: string): (e: Option<string>)
    ensures e.None? <==> (attending == "yes" || attending == "no")
  {
    if attending == "yes" || attending == "no" then None else Some(AttendingMessage(attending))
  }

  /** The notes rule on the trimmed notes: an empty value is not checked. */
  function NotesError(notes: string): (e: Option<string>)
    ensures e.None? <==> |notes| <= 1000
    ensures e.Some? ==> e.value == NotesTooLong
  {
    if notes != "" && |notes| > 1000 then Some(NotesTooLong) else None
  }

  /** The rule for a present guest slot on its trimmed name. */
  function GuestError(name: string): (e: Option<string>)
    ensures e.None? <==> 2 <= |name| <= 100
    ensures |name| == 0 ==> e == Some(GuestRequired)
    ensures |name| == 1 ==> e == Some(GuestTooShort)
    ensures |name| > 100 ==> e == Some(GuestTooLong)
  {
    if |name| > 0 then
      if |name| < 2 then Some(GuestTooShort)
      else if |name| > 100 then Some(GuestTooLong)
      else None
    else Some(GuestRequired)
  }

  /** `String(formData.get(field) || '')`, trimmed where the validator trims. */
  function FullNameOf(form: FormData): string { Trim(OrEmpty(form.full_name)) }
  function EmailOf(form: FormData): string { Trim(OrEmpty(form.email)) }
  function AttendingOf(form: FormData): string { OrEmpty(form.attending) }
  function NotesOf(form: FormData): string { Trim(OrEmpty(form.notes)) }
  function GuestNameOf(form: FormData, i: nat): string {
    Trim(if i in form.guests then form.guests[i] else "")
  }

  /** The error a key carries for this form: the per-field rules, key by key. */
  function ErrorFor(form: FormData, guestCount: nat, isEmail: string -> bool, key: FieldKey): (e: Option<string>)
    ensures key == FullName ==> (e.None? <==> 2 <= |FullNameOf(form)| <= 100)
    ensures key == Email ==> (e.None? <==> EmailOf(form) == "" || isEmail(EmailOf(form)))
    ensures key == Attending ==> (e.None? <==> AttendingOf(form) == "yes" || AttendingOf(form) == "no")
    ensures key == Notes ==> (e.None? <==> |NotesOf(form)| <= 1000)
    ensures key.Guest? ==> (e.None? <==> key.index >= guestCount || 2 <= |GuestNameOf(form, key.index)| <= 100)
  {
    match key
    case FullName => FullNameError(FullNameOf(form))
    case Email => EmailError(EmailOf(form), isEmail)
    case Attending => AttendingError(AttendingOf(form))
    case Notes => NotesError(NotesOf(form))
    case Guest(i) => if i < guestCount then GuestError(GuestNameOf(form, i)) else None
  }

  /** The record built when nothing failed. */
  function SuccessRecord(form: FormData, guestCount: nat): (r: RsvpFormData)
    ensures r.full_name == FullNameOf(form) && r.attending == AttendingOf(form)
    ensures r.email.None? <==> EmailOf(form) == ""
    ensures r.email.Some? ==> r.email.value == EmailOf(form)
    ensures r.notes.None? <==> NotesOf(form) == ""
    ensures r.notes.Some? ==> r.notes.value == NotesOf(form)
    ensures r.guest_names.None? <==> guestCount == 0
    ensures r.guest_names.Some? ==>
      |r.guest_names.value| == guestCount
      && forall i :: 0 <= i < guestCount ==> r.guest_names.value[i] == GuestNameOf(form, i)
  {
    var email := EmailOf(form);
    var notes := NotesOf(form);
    RsvpFormData(
      FullNameOf(form),
      if email == "" then None else Some(email),
      AttendingOf(form),
      if guestCount == 0 then None else Some(seq(guestCount, i requires 0 <= i => GuestNameOf(form, i))),
      if notes == "" then None else Some(notes))
  }

  /**
   * `m` holds exactly the failures of the named fields and of the guest slots
   * below `n`, each with its rule's message.
   */
  ghost predicate Collected(m: map<FieldKey, string>, form: FormData, guestCount: nat,
                            isEmail: string -> bool, n: nat)
  {
    forall k :: (k in m <==> ErrorFor(form, guestCount, isEmail, k).Some? && (k.Guest? ==> k.index < n))
      && (k in m ==> m[k] == ErrorFor(form, guestCount, isEmail, k).value)
  }

  /** Recording slot `i`'s failure, if any, extends the collection by that slot. */
  lemma {:induction false} CollectedStep(m: map<FieldKey, string>, m': map<FieldKey, string>,
                                         form: FormData, guestCount: nat, isEmail: string -> bool, i: nat)
    requires i < guestCount && Collected(m, form, guestCount, isEmail, i)
    requires var e := GuestError(GuestNameOf(form, i)); m' == if e.Some? then m[Guest(i) := e.value] else m
    ensures Collected(m', form, guestCount, isEmail, i + 1)
  {
    var e := GuestError(GuestNameOf(form, i));
    assert ErrorFor(form, guestCount, isEmail, Guest(i)) == e;
    forall k
      ensures (k in m' <==> ErrorFor(form, guestCount, isEmail, k).Some? && (k.Guest? ==> k.index < i + 1))
      ensures (k in m' ==> m'[k] == ErrorFor(form, guestCount, isEmail, k).value)
    {
      if k != Guest(i) {
        assert k in m' <==> k in m;
        assert k.Guest? ==> (k.index < i + 1 <==> k.index < i);
      }
    }
  }

  /**
   * Once every slot is collected, the map holds exactly the failing keys, and it
   * is empty iff no rule fails.
   */
  lemma {:induction false} CollectedAll(m: map<FieldKey, string>, form: FormData, guestCount: nat,
                                        isEmail: string -> bool)
    requires Collected(m, form, guestCount, isEmail, guestCount)
    ensures forall k :: k in m <==> ErrorFor(form, guestCount, isEmail, k).Some?
    ensures forall k :: k in m ==> m[k] == ErrorFor(form, guestCount, isEmail, k).value
    ensures |m| == 0 <==> forall k :: ErrorFor(form, guestCount, isEmail, k).None?
  {
    forall k ensures k in m <==> ErrorFor(form, guestCount, isEmail, k).Some? {
      if k.Guest? && k.index >= guestCount {
        assert ErrorFor(form, guestCount, isEmail, k).None?;
      }
    }
    if |m| != 0 {
      var k :| k in m;
      assert ErrorFor(form, guestCount, isEmail, k).Some?;
    }
  }

  /**
   * The first half of `validateRsvpForm`: full name, email (only when
   * non-empty), attending and notes (only when non-empty), each checked on its
   * own and recorded under its key when it fails.
   */
  method CheckNamedFields(form: FormData, guestCount: nat, isEmail: string -> bool)
    returns (fieldErrors: map<FieldKey, string>)
    ensures forall k :: k in fieldErrors <==> !k.Guest? && ErrorFor(form, guestCount, isEmail, k).Some?
    ensures forall k :: k in fieldErrors ==> fieldErrors[k] == ErrorFor(form, guestCount, isEmail, k).value
  {
    var fullName := FullNameOf(form);
    var email := EmailOf(form);
    var attending := AttendingOf(form);
    var notes := NotesOf(form);
    fieldErrors := map[];

    var e := FullNameError(fullName);
    if e.Some? { fieldErrors := fieldErrors[FullName := e.value]; }

    if email != "" {
      e := EmailError(email, isEmail);
      if e.Some? { fieldErrors := fieldErrors[Email := e.value]; }
    }

    e := AttendingError(attending);
    if e.Some? { fieldErrors := fieldErrors[Attending := e.value]; }

    if notes != "" {
      e := NotesError(notes);
      if e.Some? { fieldErrors := fieldErrors[Notes := e.value]; }
    }
    assert ErrorFor(form, guestCount, isEmail, FullName) == FullNameError(fullName);
    assert ErrorFor(form, guestCount, isEmail, Email) == EmailError(email, isEmail);
    assert ErrorFor(form, guestCount, isEmail, Attending) == AttendingError(attending);
    assert ErrorFor(form, guestCount, isEmail, Notes) == NotesError(notes);
    forall k
      ensures k in fieldErrors <==> !k.Guest? && ErrorFor(form, guestCount, isEmail, k).Some?
      ensures k in fieldErrors ==> fieldErrors[k] == ErrorFor(form, guestCount, isEmail, k).value
    {
      match k
      case FullName =>
      case Email =>
      case Attending =>
      case Notes =>
      case Guest(_) =>
    }
  }

  /**
   * The guest loop of `validateRsvpForm`: slot by slot, a failing name is
   * recorded under its slot's key, and a passing one is kept in order.
   */
  method CheckGuests(form: FormData, guestCount: nat, isEmail: string -> bool, named: map<FieldKey, string>)
    returns (fieldErrors: map<FieldKey, string>, guestNames: seq<string>)
    requires Collected(named, form, guestCount, isEmail, 0)
    ensures Collected(fieldErrors, form, guestCount, isEmail, guestCount)
    ensures (forall j :: 0 <= j < guestCount ==> GuestError(GuestNameOf(form, j)).None?) ==>
      |guestNames| == guestCount && forall j :: 0 <= j < guestCount ==> guestNames[j] == GuestNameOf(form, j)
  {
    fieldErrors := named;
    guestNames := [];
    var i := 0;
    while i < guestCount
      invariant 0 <= i <= guestCount
      invariant Collected(fieldErrors, form, guestCount, isEmail, i)
      invariant (forall j :: 0 <= j < i ==> GuestError(GuestNameOf(form, j)).None?) ==>
        |guestNames| == i && forall j :: 0 <= j < i ==> guestNames[j] == GuestNameOf(form, j)
    {
      ghost var before := fieldErrors;
      var guestName := GuestNameOf(form, i);
      if |guestName| > 0 {
        var e := GuestError(guestName);
        if e.None? {
          guestNames := guestNames + [guestName];
        } else {
          fieldErrors := fieldErrors[Guest(i) := e.value];
        }
      } else if guestCount > i {
        fieldErrors := fieldErrors[Guest(i) := GuestRequired];
      }
      CollectedStep(before, fieldErrors, form, guestCount, isEmail, i);
      i := i + 1;
    }
  }

  /**
   * `validateRsvpForm(formData, guestCount)`. The error map holds exactly the
   * keys whose rule fails, each with that rule's message; the result is a
   * failure iff some rule fails; otherwise it is the normalised record, with the
   * guest names in slot order.
   */
  method ValidateRsvpForm(form: FormData, guestCount: nat, isEmail: string -> bool)
    returns (r: Validation)
    ensures r.Invalid? ==> forall k :: k in r.errors <==> ErrorFor(form, guestCount, isEmail, k).Some?
    ensures r.Invalid? ==> forall k :: k in r.errors ==> r.errors[k] == ErrorFor(form, guestCount, isEmail, k).value
    ensures r.Valid? <==> forall k :: ErrorFor(form, guestCount, isEmail, k).None?
    ensures r.Valid? ==> r.data == SuccessRecord(form, guestCount)
  {
    var named := CheckNamedFields(form, guestCount, isEmail);
    assert Collected(named, form, guestCount, isEmail, 0);
    var fieldErrors, guestNames := CheckGuests(form, guestCount, isEmail, named);

    CollectedAll(fieldErrors, form, guestCount, isEmail);
    if |fieldErrors| > 0 {
      return Invalid(fieldErrors);
    }

    SuccessNames(form, guestCount, isEmail, guestNames);
    var email := EmailOf(form);
    var notes := NotesOf(form);
    r := Valid(RsvpFormData(
      FullNameOf(form),
      if email == "" then None else Some(email),
      AttendingOf(form),
      if |guestNames| > 0 then Some(guestNames) else None,
      if notes == "" then None else Some(notes)));
  }

  /**
   * When no rule fails, the names kept slot by slot are the record's guest
   * names: all of them, in order, and none when there are no slots.
   */
  lemma SuccessNames(form: FormData, guestCount: nat, isEmail: string -> bool, guestNames: seq<string>)
    requires forall k :: ErrorFor(form, guestCount, isEmail, k).None?
    requires (forall j :: 0 <= j < guestCount ==> GuestError(GuestNameOf(form, j)).None?) ==>
      |guestNames| == guestCount && forall j :: 0 <= j < guestCount ==> guestNames[j] == GuestNameOf(form, j)
    ensures SuccessRecord(form, guestCount).guest_names == if |guestNames| > 0 then Some(guestNames) else None
  {
    forall j | 0 <= j < guestCount ensures GuestError(GuestNameOf(form, j)).None? {
      assert ErrorFor(form, guestCount, isEmail, Guest(j)).None?;
    }
    if guestCount > 0 {
      assert SuccessRecord(form, guestCount).guest_names.value == guestNames;
    }
  }

  /**
   * Each guest slot is judged on its own name only: changing another slot's
   * text leaves its verdict unchanged.
   */
  lemma SlotsIndependent(form: FormData, guestCount: nat, isEmail: string -> bool, i: nat, j: nat, text: string)
    requires i != j
    ensures ErrorFor(form.(guests := form.guests[j := text]), guestCount, isEmail, Guest(i))
         == ErrorFor(form, guestCount, isEmail, Guest(i))
  {
    assert GuestNameOf(form.(guests := form.guests[j := text]), i) == GuestNameOf(form, i);
  }

  /**
   * Two guest slots, the first named and the second left blank: only the
   * second fails, with the required-name message, and slots past the count are
   * not examined.
   */
  lemma OneBlankSlot(form: FormData, isEmail: string -> bool)
    requires form.guests == map[0 := "Al", 1 := ""]
    ensures ErrorFor(form, 2, isEmail, Guest(0)).None?
    ensures ErrorFor(form, 2, isEmail, Guest(1)) == Some(GuestRequired)
    ensures forall i: nat :: i >= 2 ==> ErrorFor(form, 2, isEmail, Guest(i)).None?
  {
    TrimOfTrimmed("Al");
    TrimOfTrimmed("");
  }
}
