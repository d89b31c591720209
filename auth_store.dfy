/** The browser-side user registry (frontend/src/utils/authStore.js): a list
    of users kept under one storage key and the signed-in user under another.
    The storage is the `Store` class; the list operations are specified by
    the functions below, which the methods are proved against. */
module AuthStore {
  import opened Common
  import opened Text
  import Seqs

  datatype User = User(email: string, password: string, name: string, role: string, isAdmin: bool)

  /** The `updates` object spread over a user: the fields it sets. The pages
      never pass an email. */
  datatype Patch = Patch(password: Option<string>, name: Option<string>, role: Option<string>, isAdmin: Option<bool>)

  /** `{ ...u, ...updates }`. */
  function Merge(u: User, p: Patch): (r: User)
    ensures r.email == u.email
  {
    User(u.email, p.password.GetOr(u.password), p.name.GetOr(u.name), p.role.GetOr(u.role), p.isAdmin.GetOr(u.isAdmin))
  }

  /** Merging the same updates twice is merging them once; merging nothing
      changes nothing. */
  lemma MergeIdempotent(u: User, p: Patch)
    ensures Merge(Merge(u, p), p) == Merge(u, p)
    ensures Merge(u, Patch(None, None, None, None)) == u
  {
  }

  const DefaultPassword: string := "Pilot2026"

  /** The five seeded accounts; only the first is an administrator. */
  function DefaultUsers(): (r: seq<User>)
    ensures |r| == 5 && r[0].isAdmin
    ensures forall i :: 1 <= i < |r| ==> !r[i].isAdmin
    ensures forall i :: 0 <= i < |r| ==> r[i].password == DefaultPassword
  {
    [ User("arjun@advocourt.io", DefaultPassword, "Arjun Mehta", "Managing Partner", true),
      User("elena@advocourt.io", DefaultPassword, "Elena Vasquez", "Senior Associate", false),
      User("daniel@advocourt.io", DefaultPassword, "Daniel Okafor", "Associate Attorney", false),
      User("sofia@advocourt.io", DefaultPassword, "Sofia Petrov", "Paralegal", false),
      User("kevin@advocourt.io", DefaultPassword, "Kevin Liang", "Junior Associate", false) ]
  }

  const OldDomain: string := "@casepilot.io"

  /** The stored JSON contains `'@casepilot.io'`. The text has no character
      JSON escapes or uses as punctuation, so it can only occur inside one
      string field of one user. */
  predicate MentionsOldDomain(us: seq<User>) {
    exists i :: 0 <= i < |us| && (Includes(us[i].email, OldDomain) || Includes(us[i].password, OldDomain)
                                  || Includes(us[i].name, OldDomain) || Includes(us[i].role, OldDomain))
  }

  predicate EmailsDistinct(us: seq<User>) {
    forall i, j :: 0 <= i < j < |us| ==> us[i].email != us[j].email
  }

  /** `findIndex(u => u.email === email)`. */
  function IndexOfEmail(us: seq<User>, email: string): (r: Option<nat>)
    ensures r.None? <==> forall i :: 0 <= i < |us| ==> us[i].email != email
    ensures r.Some? ==> r.value < |us| && us[r.value].email == email
                        && forall j :: 0 <= j < r.value ==> us[j].email != email
  {
    if us == [] then None
    else if us[0].email == email then Some(0)
    else match IndexOfEmail(us[1..], email)
      case None => None
      case Some(i) => Some(i + 1)
  }

  /** `find(u => u.email === email && u.password === password) || null`. */
  function FindIn(us: seq<User>, email: string, password: string): (r: Option<User>)
    ensures r.Some? <==> exists i :: 0 <= i < |us| && us[i].email == email && us[i].password == password
    ensures r.Some? ==> r.value in us && r.value.email == email && r.value.password == password
  {
    if us == [] then None
    else if us[0].email == email && us[0].password == password then Some(us[0])
    else
      var r := FindIn(us[1..], email, password);
      assert forall i :: 1 <= i < |us| ==> us[i] == us[1..][i - 1];
      r
  }

  /** `find(u => u.email === email) || null`. */
  function ByEmail(us: seq<User>, email: string): (r: Option<User>)
    ensures r.None? <==> forall i :: 0 <= i < |us| ==> us[i].email != email
    ensures r.Some? ==> r.value in us && r.value.email == email
  {
    match IndexOfEmail(us, email)
    case None => None
    case Some(i) => Some(us[i])
  }

  /** The list after `updateUser`: the first user with the email merged with
      the updates; every other entry, and every email, unchanged. */
  function WithUpdate(us: seq<User>, email: string, p: Patch): (r: seq<User>)
    ensures |r| == |us|
    ensures forall j :: 0 <= j < |us| ==> r[j].email == us[j].email
    ensures forall j :: 0 <= j < |us| && us[j].email != email ==> r[j] == us[j]
  {
    match IndexOfEmail(us, email)
    case None => us
    case Some(i) => us[i := Merge(us[i], p)]
  }

  /** With distinct emails exactly the user with that email changes, and
      only in the fields the updates set. */
  lemma UpdateTouchesOne(us: seq<User>, email: string, p: Patch, i: nat)
    requires EmailsDistinct(us) && i < |us| && us[i].email == email
    ensures WithUpdate(us, email, p)[i] == Merge(us[i], p)
    ensures forall j :: 0 <= j < |us| && j != i ==> WithUpdate(us, email, p)[j] == us[j]
  {
    assert IndexOfEmail(us, email) == Some(i);
  }

  const DuplicateMessage: string := "User with this email already exists"

  /** The list after `addUser`: refused when the email is taken, otherwise
      the user is appended. */
  function WithAdded(us: seq<User>, u: User): (r: Result<seq<User>, string>)
    ensures r.Err? <==> exists i :: 0 <= i < |us| && us[i].email == u.email
    ensures r.Err? ==> r.error == DuplicateMessage
    ensures r.Ok? ==> r.value == us + [u]
  {
    if IndexOfEmail(us, u.email).Some? then Err(DuplicateMessage) else Ok(us + [u])
  }

  /** The list after `deleteUser`: no user with the email, the rest in
      order. */
  /** The filter `u => u.email !== email`. */
  function OtherEmail(email: string): User -> bool {
    (x: User) => x.email != email
  }

  function WithoutEmail(us: seq<User>, email: string): (r: seq<User>)
    ensures forall u :: u in r <==> u in us && u.email != email
    ensures |r| <= |us|
  {
    Seqs.Filter(us, OtherEmail(email))
  }

  /** Deleting an absent email keeps the list as it is. */
  lemma DeleteAbsent(us: seq<User>, email: string)
    requires forall i :: 0 <= i < |us| ==> us[i].email != email
    ensures WithoutEmail(us, email) == us
  {
    Seqs.FilterKeepsAll(us, OtherEmail(email));
  }

  lemma DefaultsDistinct()
    ensures EmailsDistinct(DefaultUsers())
  {
  }

  /** Every change of the list keeps emails unique. */
  lemma ChangesKeepEmailsDistinct(us: seq<User>, email: string, p: Patch, u: User)
    requires EmailsDistinct(us)
    ensures EmailsDistinct(WithUpdate(us, email, p))
    ensures WithAdded(us, u).Ok? ==> EmailsDistinct(WithAdded(us, u).value)
    ensures EmailsDistinct(WithoutEmail(us, email))
  {
    var r := WithoutEmail(us, email);
    forall i, j | 0 <= i < j < |r| ensures r[i].email != r[j].email {
      FilterDistinctEmails(us, email, i, j);
    }
  }

  lemma FilterDistinctEmails(us: seq<User>, email: string, i: nat, j: nat)
    requires EmailsDistinct(us)
    requires i < j < |WithoutEmail(us, email)|
    ensures WithoutEmail(us, email)[i].email != WithoutEmail(us, email)[j].email
  {
    var keep := OtherEmail(email);
    Seqs.KeptCountLength(us, keep);
    Seqs.FilterPosMonotone(us, keep, i, j);
    var a, b := Seqs.FilterPos(us, keep, i), Seqs.FilterPos(us, keep, j);
    Seqs.FilterPosAt(us, keep, i);
    Seqs.FilterPosAt(us, keep, j);
    assert us[a].email != us[b].email;
  }

  /** Local storage: the user list (`None` while the key is unset) and the
      session user. */
  class Store {
    var stored: Option<seq<User>>
    var session: Option<User>

    /** `getUsers`: the stored list, `[]` when unset. */
    function Users(): seq<User>
      reads this
    {
      stored.GetOr([])
    }

    constructor (stored: Option<seq<User>>, session: Option<User>)
      ensures this.stored == stored && this.session == session
    {
      this.stored := stored;
      this.session := session;
    }

    /** `initUsers`: reset to the defaults when the key is unset or the list
        still mentions the old domain; otherwise leave it. */
    method InitUsers()
      modifies this
      ensures old(stored).None? || MentionsOldDomain(old(stored).value) ==> stored == Some(DefaultUsers())
      ensures old(stored).Some? && !MentionsOldDomain(old(stored).value) ==> stored == old(stored)
      ensures session == old(session)
    {
      if stored.None? || MentionsOldDomain(stored.value) {
        stored := Some(DefaultUsers());
      }
    }

    function FindUser(email: string, password: string): Option<User>
      reads this
    {
      FindIn(Users(), email, password)
    }

    function GetUserByEmail(email: string): Option<User>
      reads this
    {
      ByEmail(Users(), email)
    }

    /** `updateUser`: `null` and no change for an absent email; otherwise
        the list is updated, and a session for the same email receives the
        same updates. */
    method UpdateUser(email: string, p: Patch) returns (r: Option<User>)
      modifies this
      ensures IndexOfEmail(old(Users()), email).None? ==>
                r.None? && stored == old(stored) && session == old(session)
      ensures IndexOfEmail(old(Users()), email).Some? ==>
                stored == Some(WithUpdate(old(Users()), email, p))
                && r == Some(Merge(old(Users())[IndexOfEmail(old(Users()), email).value], p))
                && session == (if old(session).Some? && old(session).value.email == email
                               then Some(Merge(old(session).value, p)) else old(session))
    {
      var users := Users();
      var idx := IndexOfEmail(users, email);
      if idx.None? {
        return None;
      }
      var merged := Merge(users[idx.value], p);
      users := users[idx.value := merged];
      stored := Some(users);
      if session.Some? && session.value.email == email {
        session := Some(Merge(session.value, p));
      }
      r := Some(merged);
    }

    /** `addUser`: throws on a taken email, leaving everything unchanged;
        otherwise appends. */
    method AddUser(u: User) returns (r: Result<User, string>)
      modifies this
      ensures WithAdded(old(Users()), u).Err? ==>
                r == Err(DuplicateMessage) && stored == old(stored) && session == old(session)
      ensures WithAdded(old(Users()), u).Ok? ==>
                r == Ok(u) && stored == Some(old(Users()) + [u]) && session == old(session)
    {
      var users := Users();
      if IndexOfEmail(users, u.email).Some? {
        return Err(DuplicateMessage);
      }
      stored := Some(users + [u]);
      r := Ok(u);
    }

    method DeleteUser(email: string)
      modifies this
      ensures stored == Some(WithoutEmail(old(Users()), email)) && session == old(session)
    {
      stored := Some(WithoutEmail(Users(), email));
    }

    function GetSession(): Option<User>
      reads this
    {
      session
    }

    method SetSession(u: User)
      modifies this
      ensures GetSession() == Some(u) && stored == old(stored)
    {
      session := Some(u);
    }

    method ClearSession()
      modifies this
      ensures GetSession() == None && stored == old(stored)
    {
      session := None;
    }
  }
}
