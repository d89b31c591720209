/** The sign-in form (frontend/src/pages/Login.jsx): required fields, the
    credential lookup and the session it opens. */
module Login {
  import opened Common
  import opened Text
  import opened AuthStore

  /** The `errors` object of the form. */
  datatype LoginErrors = LoginErrors(email: Option<string>, password: Option<string>, form: Option<string>) {
    predicate Empty() {
      email.None? && password.None? && form.None?
    }
  }

  const NoErrors: LoginErrors := LoginErrors(None, None, None)
  const BadCredentials: string := "Invalid email or password"

  /** The required-field checks; both are reported together. */
  function InputErrors(email: string, password: string): (e: LoginErrors)
    ensures e.email.Some? <==> email == ""
    ensures e.password.Some? <==> password == ""
    ensures e.form.None?
    ensures e.email.Some? ==> e.email.value == "Email is required"
    ensures e.password.Some? ==> e.password.value == "Password is required"
  {
    LoginErrors(if email == "" then Some("Email is required") else None,
                if password == "" then Some("Password is required") else None,
                None)
  }

  /** `handleSubmit`: a missing field stops before any lookup; unmatched
      credentials set the form error; a match becomes the session and is
      greeted by the first word of its name. */
  method HandleSubmit(store: Store, email: string, password: string) returns (errors: LoginErrors, welcome: Option<string>)
    modifies store
    ensures !InputErrors(email, password).Empty() ==>
              errors == InputErrors(email, password) && welcome.None? && unchanged(store)
    ensures InputErrors(email, password).Empty() && old(store.FindUser(email, password)).None? ==>
              errors == LoginErrors(None, None, Some(BadCredentials)) && welcome.None? && unchanged(store)
    ensures InputErrors(email, password).Empty() && old(store.FindUser(email, password)).Some? ==>
              errors == NoErrors && store.session == old(store.FindUser(email, password))
              && store.stored == old(store.stored)
              && welcome == Some(FirstWord(store.session.value.name))
  {
    errors := InputErrors(email, password);
    if !errors.Empty() {
      return errors, None;
    }
    var user := store.FindUser(email, password);
    if user.None? {
      return LoginErrors(None, None, Some(BadCredentials)), None;
    }
    store.SetSession(user.value);
    errors, welcome := NoErrors, Some(FirstWord(user.value.name));
  }

  /** A successful sign-in needs both fields and a registered user whose
      email and password both match exactly. */
  lemma SignInIff(store: Store, email: string, password: string)
    ensures InputErrors(email, password).Empty() && store.FindUser(email, password).Some? <==>
              email != "" && password != ""
              && exists i :: 0 <= i < |store.Users()| && store.Users()[i].email == email
                             && store.Users()[i].password == password
  {
  }

  /** The greeting is the first word of the name: no spaces, and the name
      continues with a space or ends right after it. */
  lemma WelcomeIsFirstWord(name: string)
    ensures var w := FirstWord(name);
            ' ' !in w && StartsWith(name, w) && (w == name || name[|w|] == ' ')
            && w == Split(name, ' ')[0]
  {
    FirstWordIsSplitHead(name);
  }
}
