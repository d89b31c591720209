/** The team administration page (frontend/src/pages/TeamMembers.jsx): the
    member form's checks, and save, delete and the admin toggle as changes of
    the user registry. */
module TeamMembers {
  import opened Common
  import opened Text
  import opened Forms
  import opened AuthStore

  /** Only an administrator's session may stay on the page; anyone else is
      redirected. */
  predicate Admits(session: Option<User>) {
    session.Some? && session.value.isAdmin
  }

  datatype MemberForm = MemberForm(name: string, email: string, password: string, role: string, isAdmin: bool)

  const EmptyForm: MemberForm := MemberForm("", "", DefaultPassword, "Associate", false)

  /** The `formErrors` object: each key present or absent. */
  datatype MemberErrors = MemberErrors(name: Option<string>, email: Option<string>, password: Option<string>) {
    /** `Object.keys(e).length === 0`. */
    predicate Empty() {
      name.None? && email.None? && password.None?
    }
  }

  /** `validate`: one entry per failing field. */
  function Validate(f: MemberForm): (e: MemberErrors)
    ensures e.name.Some? <==> IsBlank(f.name)
    ensures e.email.Some? <==> IsBlank(f.email) || !EmailLike(f.email)
    ensures e.password.Some? <==> Utf16Length(f.password) < 4
    ensures e.name.Some? ==> e.name.value == "Required"
    ensures e.email.Some? ==> e.email.value == (if IsBlank(f.email) then "Required" else "Invalid email")
    ensures e.password.Some? ==> e.password.value == "Min 4 chars"
  {
    TrimEmptyIffBlank(f.name);
    TrimEmptyIffBlank(f.email);
    MemberErrors(
      if Trim(f.name) == "" then Some("Required") else None,
      if Trim(f.email) == "" then Some("Required") else if !EmailLike(f.email) then Some("Invalid email") else None,
      if Utf16Length(f.password) < 4 then Some("Min 4 chars") else None)
  }

  /** The form passes exactly when the name is not blank, the email matches
      the pattern and the password is four UTF-16 code units or longer. */
  lemma ValidIff(f: MemberForm)
    ensures Validate(f).Empty() <==> !IsBlank(f.name) && EmailLike(f.email) && Utf16Length(f.password) >= 4
  {
    if EmailLike(f.email) {
      var a, b :| 1 <= a < b < |f.email| - 1 && EmailAt(f.email, a, b);
      assert !IsSpace(f.email[a]);
    }
  }

  /** The new member built from the form. */
  function NewUser(f: MemberForm): User {
    User(f.email, f.password, f.name, f.role, f.isAdmin)
  }

  /** The updates an edit sends: everything on the form but the email. */
  function EditPatch(f: MemberForm): Patch {
    Patch(Some(f.password), Some(f.name), Some(f.role), Some(f.isAdmin))
  }

  /** An edit leaves every email as it was and gives the edited member the
      form's name, role, password and admin flag. */
  lemma EditKeepsEmails(us: seq<User>, i: nat, f: MemberForm)
    requires EmailsDistinct(us) && i < |us|
    ensures var r := WithUpdate(us, us[i].email, EditPatch(f));
            (forall j :: 0 <= j < |us| ==> r[j].email == us[j].email)
            && r[i] == User(us[i].email, f.password, f.name, f.role, f.isAdmin)
            && forall j :: 0 <= j < |us| && j != i ==> r[j] == us[j]
  {
    UpdateTouchesOne(us, us[i].email, EditPatch(f), i);
  }

  /** The patch the admin button sends. */
  function TogglePatch(m: User): Patch {
    Patch(None, None, None, Some(!m.isAdmin))
  }

  /** The toggle flips that member's flag and nothing else. */
  lemma ToggleFlipsOnlyAdmin(us: seq<User>, i: nat)
    requires EmailsDistinct(us) && i < |us|
    ensures var r := WithUpdate(us, us[i].email, TogglePatch(us[i]));
            r[i] == us[i].(isAdmin := !us[i].isAdmin)
            && forall j :: 0 <= j < |us| && j != i ==> r[j] == us[j]
  {
    UpdateTouchesOne(us, us[i].email, TogglePatch(us[i]), i);
  }

  datatype SaveOutcome = Invalid(errors: MemberErrors) | DuplicateEmail | Saved

  /** `handleSave`: checks the form; an edit updates the member it was
      opened for; a new member is refused when the email is taken and
      appended otherwise. */
  method HandleSave(store: Store, editing: Option<User>, f: MemberForm) returns (o: SaveOutcome)
    modifies store
    ensures !Validate(f).Empty() ==> o == Invalid(Validate(f)) && unchanged(store)
    ensures Validate(f).Empty() && editing.Some? ==>
              o == Saved && store.Users() == WithUpdate(old(store.Users()), editing.value.email, EditPatch(f))
              && store.session == (if IndexOfEmail(old(store.Users()), editing.value.email).Some?
                                      && old(store.session).Some? && old(store.session).value.email == editing.value.email
                                   then Some(Merge(old(store.session).value, EditPatch(f)))
                                   else old(store.session))
    ensures Validate(f).Empty() && editing.None? && ByEmail(old(store.Users()), f.email).Some? ==>
              o == DuplicateEmail && unchanged(store)
    ensures Validate(f).Empty() && editing.None? && ByEmail(old(store.Users()), f.email).None? ==>
              o == Saved && store.Users() == old(store.Users()) + [NewUser(f)] && store.session == old(store.session)
    ensures EmailsDistinct(old(store.Users())) ==> EmailsDistinct(store.Users())
  {
    if EmailsDistinct(store.Users()) {
      ChangesKeepEmailsDistinct(store.Users(), if editing.Some? then editing.value.email else "", EditPatch(f), NewUser(f));
    }
    var errors := Validate(f);
    if !errors.Empty() {
      return Invalid(errors);
    }
    if editing.Some? {
      var _ := store.UpdateUser(editing.value.email, EditPatch(f));
      return Saved;
    }
    if store.GetUserByEmail(f.email).Some? {
      return DuplicateEmail;
    }
    var added := store.AddUser(NewUser(f));
    assert added.Ok?;
    o := Saved;
  }

  const SelfDeleteMessage: string := "Can't delete yourself"

  /** Whether `m` is the signed-in user, whose own row has its delete and
      admin buttons disabled. */
  predicate IsSelf(store: Store, m: User)
    reads store
  {
    store.session.Some? && m.email == store.session.value.email
  }

  /** `handleDelete`: the signed-in user cannot remove themself; anyone else
      is removed. */
  method HandleDelete(store: Store, target: User) returns (refused: bool)
    modifies store
    ensures refused <==> old(IsSelf(store, target))
    ensures refused ==> unchanged(store)
    ensures !refused ==> store.Users() == WithoutEmail(old(store.Users()), target.email)
                         && store.session == old(store.session)
  {
    if IsSelf(store, target) {
      return true;
    }
    store.DeleteUser(target.email);
    refused := false;
  }

  /** The admin button, disabled on the signed-in user's own row. */
  method ToggleAdmin(store: Store, m: User) returns (applied: bool)
    modifies store
    ensures applied <==> !old(IsSelf(store, m))
    ensures !applied ==> unchanged(store)
    ensures applied ==> store.Users() == WithUpdate(old(store.Users()), m.email, TogglePatch(m))
                        && store.session == old(store.session)
  {
    if IsSelf(store, m) {
      return false;
    }
    var _ := store.UpdateUser(m.email, TogglePatch(m));
    applied := true;
  }
}
