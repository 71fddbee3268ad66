/**
 * `PasswordProtection`: the gate in front of the whole site. It starts
 * loading, checks the session flag once mounted, and unlocks on an exact
 * password match, remembering that in the session. Session storage is a map
 * owned by the gate.
 */
module PasswordGate {
  import opened Text

  const FlagKey := "wedding-site-authenticated"
  const FlagValue := "true"
  const WrongPasswordMsg := "Incorrect password. Please try again."

  /** Whether the session already records an unlocked site. */
  predicate FlagSet(session: map<string, string>) {
    FlagKey in session && session[FlagKey] == FlagValue
  }

  /** What the gate renders. */
  datatype View = Loading | Locked(error: string, submitDisabled: bool) | Content

  class Gate {
    const correctPassword: string
    var isAuthenticated: bool
    var password: string
    var error: string
    var isLoading: bool
    var session: map<string, string>

    constructor (correctPassword: string, session: map<string, string>)
      ensures this.correctPassword == correctPassword && this.session == session
      ensures isLoading && !isAuthenticated && password == "" && error == ""
    {
      this.correctPassword := correctPassword;
      this.session := session;
      isAuthenticated := false;
      password := "";
      error := "";
      isLoading := true;
    }

    /** The mount effect: unlock when the session flag says so, and stop loading. */
    method MountCheck()
      modifies this
      ensures isAuthenticated == (old(isAuthenticated) || FlagSet(session))
      ensures !isLoading
      ensures password == old(password) && error == old(error) && session == old(session)
    {
      if FlagKey in session && session[FlagKey] == FlagValue {
        isAuthenticated := true;
      }
      isLoading := false;
    }

    /** The password input changes. */
    method Type(value: string)
      modifies this
      ensures password == value
      ensures isAuthenticated == old(isAuthenticated) && error == old(error)
      ensures isLoading == old(isLoading) && session == old(session)
    {
      password := value;
    }

    /**
     * `handleSubmit`: the error is cleared; an exact match (no trimming) unlocks
     * and sets the session flag, anything else shows the error and clears the
     * input, leaving the lock as it was.
     */
    method Submit()
      modifies this
      ensures old(password) == correctPassword ==>
        isAuthenticated && FlagSet(session) && session == old(session)[FlagKey := FlagValue]
        && error == "" && password == old(password)
      ensures old(password) != correctPassword ==>
        isAuthenticated == old(isAuthenticated) && error == WrongPasswordMsg && password == ""
        && session == old(session)
      ensures isLoading == old(isLoading)
    {
      error := "";
      if password == correctPassword {
        isAuthenticated := true;
        session := session[FlagKey := FlagValue];
      } else {
        error := WrongPasswordMsg;
        password := "";
      }
    }

    /** The submit button is disabled while the password is blank. */
    function SubmitDisabled(): (d: bool)
      reads this
      ensures d <==> AllWhitespace(password)
    {
      TrimEmptyIff(password);
      Trim(password) == ""
    }

    /** The site content is shown iff loading is over and the gate is unlocked. */
    function Render(): (v: View)
      reads this
      ensures v == Content <==> !isLoading && isAuthenticated
      ensures v == Loading <==> isLoading
      ensures v.Locked? ==> v.error == error && (v.submitDisabled <==> AllWhitespace(password))
    {
      if isLoading then Loading
      else if !isAuthenticated then Locked(error, SubmitDisabled())
      else Content
    }
  }
}
