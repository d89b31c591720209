/** The signed-in user's own page (frontend/src/pages/MyAccount.jsx): the
    profile save and the ordered checks of the password change. */
module MyAccount {
  import opened Common
  import opened Text
  import opened AuthStore

  /** `getUserByEmail(session.email) || session`: the registry's copy of the
      signed-in user, or the session itself when the registry has none. */
  function AccountUser(store: Store): (u: User)
    reads store
    requires store.session.Some?
    ensures u.email == store.session.value.email
  {
    store.GetUserByEmail(store.session.value.email).GetOr(store.session.value)
  }

  datatype Check = Pass | Reject(message: string)

  const EnterCurrent: string := "Enter current password"
  const WrongCurrent: string := "Current password is incorrect"
  const TooShort: string := "New password must be at least 4 characters"
  const Mismatch: string := "Passwords do not match"

  /** The checks of `handlePwSave` against the account's password `stored`;
      the first failing one names the problem. */
  function PasswordCheck(current: string, next: string, confirm: string, stored: string): (r: Check)
    ensures r == Pass <==> current != "" && current == stored && Utf16Length(next) >= 4 && next == confirm
    ensures r == Reject(EnterCurrent) <==> current == ""
    ensures r == Reject(WrongCurrent) <==> current != "" && current != stored
    ensures r == Reject(TooShort) <==> current != "" && current == stored && Utf16Length(next) < 4
    ensures r == Reject(Mismatch) <==> current != "" && current == stored && Utf16Length(next) >= 4 && next != confirm
  {
    if current == "" then Reject(EnterCurrent)
    else if current != stored then Reject(WrongCurrent)
    else if Utf16Length(next) < 4 then Reject(TooShort)
    else if next != confirm then Reject(Mismatch)
    else Pass
  }

  /** The three password inputs. */
  datatype PwForm = PwForm(current: string, next: string, confirm: string)

  function PasswordPatch(next: string): Patch {
    Patch(Some(next), None, None, None)
  }

  /** After a change the registry holds the new password for that account,
      so the next change is checked against it. */
  lemma ChangedPasswordIsCurrent(us: seq<User>, email: string, next: string, next2: string)
    requires EmailsDistinct(us) && ByEmail(us, email).Some? && next != ""
    ensures var after := WithUpdate(us, email, PasswordPatch(next));
            ByEmail(after, email).Some? && ByEmail(after, email).value.password == next
            && PasswordCheck(next, next2, next2, ByEmail(after, email).value.password)
               == (if Utf16Length(next2) < 4 then Reject(TooShort) else Pass)
  {
    var i := IndexOfEmail(us, email).value;
    UpdateTouchesOne(us, email, PasswordPatch(next), i);
    var after := WithUpdate(us, email, PasswordPatch(next));
    assert IndexOfEmail(after, email) == Some(i);
  }

  /** The length test counts UTF-16 code units: two emoji make a password of
      length 4, which passes, while three plain letters do not. */
  lemma LengthInCodeUnits(current: string)
    requires current != ""
    ensures PasswordCheck(current, "\U{1F600}\U{1F600}", "\U{1F600}\U{1F600}", current) == Pass
    ensures PasswordCheck(current, "abc", "abc", current) == Reject(TooShort)
  {
    assert "\U{1F600}\U{1F600}"[..1] == "\U{1F600}";
    assert "abc"[..2][..1] == "a";
  }

  /** `handlePwSave`: on success the account's password becomes the new one
      and the inputs are cleared; on failure nothing changes. */
  method HandlePwSave(store: Store, pw: PwForm) returns (r: Check, after: PwForm)
    requires store.session.Some?
    modifies store
    ensures r == PasswordCheck(pw.current, pw.next, pw.confirm, old(AccountUser(store)).password)
    ensures r.Reject? ==> after == pw && unchanged(store)
    ensures r.Pass? ==> after == PwForm("", "", "")
                        && store.Users() == WithUpdate(old(store.Users()), old(store.session.value.email), PasswordPatch(pw.next))
    ensures r.Pass? ==>
              store.session == (if IndexOfEmail(old(store.Users()), old(store.session.value.email)).Some?
                                then Some(Merge(old(store.session.value), PasswordPatch(pw.next)))
                                else old(store.session))
  {
    var user := AccountUser(store);
    r := PasswordCheck(pw.current, pw.next, pw.confirm, user.password);
    if r.Reject? {
      return r, pw;
    }
    var _ := store.UpdateUser(user.email, PasswordPatch(pw.next));
    after := PwForm("", "", "");
  }

  function ProfilePatch(name: string, role: string): Patch {
    Patch(None, Some(name), Some(role), None)
  }

  /** A profile save sets exactly the name and the role. */
  lemma ProfileSetsNameAndRole(u: User, name: string, role: string)
    ensures Merge(u, ProfilePatch(name, role)) == u.(name := name, role := role)
  {
  }

  const NameRequired: string := "Name is required"

  /** `handleProfileSave`: a blank name is refused; otherwise name and role
      are written to the registry and to the session, whose email stays. */
  method HandleProfileSave(store: Store, name: string, role: string) returns (r: Check)
    requires store.session.Some?
    modifies store
    ensures r == Reject(NameRequired) <==> IsBlank(name)
    ensures r.Reject? ==> unchanged(store)
    ensures r.Pass? ==> store.Users() == WithUpdate(old(store.Users()), old(store.session.value.email), ProfilePatch(name, role))
                        && store.session == Some(old(store.session.value).(name := name, role := role))
  {
    TrimEmptyIffBlank(name);
    if Trim(name) == "" {
      return Reject(NameRequired);
    }
    var session := store.session.value;
    var user := AccountUser(store);
    var _ := store.UpdateUser(user.email, ProfilePatch(name, role));
    store.SetSession(session.(name := name, role := role));
    r := Pass;
  }
}
