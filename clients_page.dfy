/** The client list (frontend/src/pages/Clients.jsx): the form's name and
    email rules and the colour of a client's standing. */
module ClientsPage {
  import opened Common
  import opened Text
  import opened Forms

  datatype ClientErrors = ClientErrors(fullName: Option<string>, email: Option<string>) {
    predicate Empty() {
      fullName.None? && email.None?
    }
  }

  const NameRequired: string := "Name is required"
  const EmailRequired: string := "Email is required"
  const InvalidEmail: string := "Invalid email"

  /** `validateForm`: a blank name; a blank email, or else one that does
      not match `\S+@\S+\.\S+`. */
  function Validate(fullName: string, email: string): (e: ClientErrors)
    ensures e.fullName.Some? <==> IsBlank(fullName)
    ensures e.fullName.Some? ==> e.fullName.value == NameRequired
    ensures e.email == Some(EmailRequired) <==> IsBlank(email)
    ensures e.email == Some(InvalidEmail) <==> !IsBlank(email) && !EmailLike(email)
    ensures e.email.Some? ==> e.email.value in {EmailRequired, InvalidEmail}
  {
    TrimEmptyIffBlank(fullName);
    TrimEmptyIffBlank(email);
    ClientErrors(
      if Trim(fullName) == "" then Some(NameRequired) else None,
      if Trim(email) == "" then Some(EmailRequired)
      else if !EmailLike(email) then Some(InvalidEmail)
      else None)
  }

  /** The form is accepted iff the name is not blank and the email has the
      shape of an address; such an email is never blank. */
  lemma ValidIff(fullName: string, email: string)
    ensures Validate(fullName, email).Empty() <==> !IsBlank(fullName) && EmailLike(email)
  {
    if EmailLike(email) {
      var a, b :| 1 <= a < b < |email| - 1 && EmailAt(email, a, b);
      assert !IsSpace(email[a]);
    }
  }

  /** `standingColor`. */
  function StandingColor(s: string): (c: string)
    ensures s == "Active" ==> c == "emerald"
    ensures s == "Suspended" ==> c == "rose"
    ensures s != "Active" && s != "Suspended" ==> c == "gray"
  {
    var table := map["Active" := "emerald", "Inactive" := "gray", "Suspended" := "rose"];
    if s in table then table[s] else "gray"
  }

  /** Only Active and Suspended clients get a colour other than gray. */
  lemma StandingColorIff(s: string)
    ensures StandingColor(s) != "gray" <==> s == "Active" || s == "Suspended"
  {
  }
}
